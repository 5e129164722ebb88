# Calculator node core of PyNodeFramework, in Dafny

This project models the part of the PyNodeFramework calculator example that has
its own semantics:

- the `compute` step of the five arithmetic nodes: Addition, Subtraction,
  Multiplication, Division and Modulo;
- the two type converters between DecimalData and IntegerData, and the table of
  converters that the entry point registers;
- the two immutable node-data types and their kind tags, plus the integer's
  decimal text rendering.

Modules, leaves first:

| file | module | models |
|---|---|---|
| `numeric_data.dfy` | `NumericData` | `DecimalData` / `IntegerData` as `Value = Decimal(real) \| Integer(int)`, their `data_type` kinds, constructors with defaults, `number` |
| `integer_text.dfy` | `IntegerText` | `IntegerData.number_as_text`, with a decimal reader `Parse` as its inverse |
| `py_arith.dfy` | `PyArith` | Python's `int(float)` (truncation toward zero) and `%` on ints (floor modulo), written out explicitly |
| `converters.dfy` | `Converters` | `integer_to_decimal_converter`, `decimal_to_integer_converter`, the registered converter table and lookup through it |
| `operations.dfy` | `Operations` | the per-node `compute` as one pure transition `Compute(op, state, a, b)` over `Op = Add \| Sub \| Mul \| Div \| Mod` |

A node's state is the record `NodeState(result: Option<Value>, state: Valid | Error, message)`.
It covers the three attributes that `compute` reads or writes: `_result`,
`_validation_state` and `_validation_message`. A float64 Decimal is abstracted
as a Dafny `real`, and an int as an unbounded `int`.

Python's `%` is floor modulo: the remainder takes the divisor's sign. Dafny's
`%` is Euclidean, so `PyArith.PyMod` defines floor modulo explicitly, and
`PyArith.PyModUnique` proves that the remainder is fully determined by its
three properties. Python's `int(x)` truncates toward zero. It is written as
`PyArith.Trunc`, because Dafny's `Floor` rounds down instead.

Two places in the source behave differently from what the surrounding code
evidently intends (see "## Findings"). The model keeps both readings:

- `Compute` and `TableAsWritten` are the code as written.
- `ComputeCorrected` and `CorrectedTable` are the repaired definitions.
- `Run` models a node's successive recomputations and uses `ComputeCorrected`.

## Model

| member | source | states |
|---|---|---|
| `NumericData.KindOf` | datatypes/IntegerData.py:5 | A value is Decimal exactly when its kind is `("decimal", "Decimal")`, and Integer exactly when its kind is `("integer", "Integer")` |
| `NumericData.KindsDiffer` | datatypes/DecimalData.py:5 | The two kinds differ in both identifier and display name |
| `NumericData.MakeDecimal` | datatypes/DecimalData.py:7-8 | The DecimalData constructor, with default 0.0, always builds a value of kind Decimal |
| `NumericData.MakeInteger` | datatypes/IntegerData.py:7-8 | The IntegerData constructor, with default 0, always builds a value of kind Integer |
| `NumericData.Real` | datatypes/DecimalData.py:15-18 | Reading `number` on the real line: an Integer contributes a whole number equal to its stored int |
| `NumericData.NumberRoundTrip` | datatypes/IntegerData.py:7-17 | `number` returns exactly the constructor argument; the defaults are 0.0 and 0 |
| `IntegerText.NatText` | datatypes/IntegerData.py:19-21 | The digits of a natural number are non-empty, all decimal digits, have no leading zero, and are "0" exactly for 0 |
| `IntegerText.NumberAsText` | datatypes/IntegerData.py:19-21 | `str(n)` starts with '-' exactly when n < 0; the digits after it are canonical and never "0"; the text is "0" exactly for 0 |
| `IntegerText.DigitsOfNatText` | datatypes/IntegerData.py:19-21 | Reading the rendered digits of n gives n back |
| `IntegerText.NumberAsTextRoundTrip` | datatypes/IntegerData.py:19-21 | Parsing `number_as_text(n)` as a decimal integer yields n, for every integer n |
| `IntegerText.NumberAsTextInjective` | datatypes/IntegerData.py:19-21 | Two integers with the same text are equal |
| `PyArith.Trunc` | main.py:122 | `int(x)` is 0 or has the sign of x, is no larger than x in absolute value, and is less than 1 away from x |
| `PyArith.PyMod` | main.py:71 | `a % b` satisfies a = b·(a // b) + r, with abs(r) < abs(b), and r is 0 or has the sign of b |
| `PyArith.PyModUnique` | main.py:71 | Any q, r with a = b·q + r, abs(r) < abs(b) and r of b's sign (or 0) are Python's `a // b` and `a % b` |
| `PyArith.PyModVersusEuclidean` | main.py:71 | Python's `%` and Dafny's `%` agree for every positive divisor and for every exact division. For a negative divisor that does not divide a they differ: Python's remainder is Dafny's plus b (7 % -2 is -1 in Python) |
| `Converters.IntegerToDecimal` | main.py:99-109 | The Integer-to-Decimal converter produces a Decimal with the same numeric value |
| `Converters.DecimalToInteger` | main.py:112-122 | The Decimal-to-Integer converter produces an Integer that truncates toward zero: same sign or 0, no larger in magnitude, less than 1 away |
| `Converters.Apply` | main.py:99-122 | A converter's output kind is fixed whatever its input: Decimal for Integer-to-Decimal, Integer for Decimal-to-Integer. Only the truncating converter may change the numeric value |
| `Converters.TableAsWritten` | main.py:134-137 | The registered table has exactly the pairs (Decimal, Integer) and (Integer, Decimal), and both hold the truncating Decimal-to-Integer converter |
| `Converters.CorrectedTable` | main.py:134-137 | The repaired table has the same two pairs, with Decimal-to-Integer on (Decimal, Integer) and Integer-to-Decimal on (Integer, Decimal) |
| `Converters.Register` | main.py:134-137 | Registering a converter for a (source, destination) pair adds exactly that key, maps it to the converter, and leaves the other entries alone |
| `Converters.Convert` | main.py:134-137 | A value converts to a kind exactly when the table has its (kind, destination) pair; in a well-typed table the result has the destination kind |
| `Converters.TableAsWrittenMisroutes` | main.py:134-137 | As registered, both pairs hold the truncating Decimal-to-Integer converter, so Integer(4) sent to a Decimal port arrives as Integer(4), not Decimal |
| `Converters.CorrectedTableWellTyped` | main.py:134-137 | The corrected table has the same pairs, keeps the Decimal-to-Integer entry, and every entry produces its destination kind |
| `Converters.CorrectedRoundTrip` | main.py:99-122 | Through the corrected table, Integer(n) becomes Decimal(n), and Decimal(n) becomes Integer(n) again |
| `Operations.Compute` | main.py:30-96 | Add, Sub and Mul set the result to the Decimal sum, difference or product and leave state and message untouched. Div and Mod with a zero divisor set Error, "Division by zero error" and no result. Div otherwise sets Valid, "" and Decimal(a / b). Mod otherwise sets Integer(r), with r the floor remainder (b divides a - r, abs(r) < abs(b), r of b's sign or 0), and leaves state and message untouched |
| `Operations.ComputeCorrected` | main.py:45-71 | The Mod fix: same result as `Compute` for every operation, identical to it on Add, Sub, Mul and Div. After Div or Mod the state is Error exactly when the result is absent, and a valid state has an empty message |
| `Operations.Run` | main.py:30-96 | Across any sequence of recomputations, with the Mod step the corrected one, a node keeps its invariant: coherent state, and always valid for Add, Sub and Mul. Add, Sub and Mul never touch state or message. The final result is the one computed from the last operands |
| `Operations.ComputeKeepsInvariant` | main.py:30-96 | The as-written `compute` of Add, Sub, Mul and Div keeps the node invariant (coherent state, and valid for Add, Sub, Mul) |
| `Operations.SubUndoesAdd` | main.py:33-96 | Over the real abstraction of float64, subtracting b from the Addition node's result gives back a |
| `Operations.DivUndoesMul` | main.py:45-83 | Over the real abstraction of float64, dividing the Multiplication node's result by a non-zero b gives back a, with a valid state and empty message |
| `Operations.AddMulCommute` | main.py:33-83 | Addition and Multiplication do not depend on operand order |
| `Operations.DivClearsError` | main.py:45-53 | A Division node in the division-by-zero error returns to Valid with an empty message once the divisor is non-zero |
| `Operations.ModKeepsStaleError` | main.py:65-71 | As written, Modulo(7, 0) followed by Modulo(7, 2) leaves Error and "Division by zero error" beside the result Integer(1) |
| `Operations.ModCorrectedClearsError` | main.py:65-71 | With the fix, the same two recomputations end in Valid, "" and Integer(1) |
| `Operations.Scenarios` | main.py:33-71 | Addition(1.0, 2.0) gives 3.0. Division(5.0, 0.0) gives the error state. Modulo(7, 2) gives 1, and Modulo(7, -2) gives -1 |

## Left out

- The Qt and node-editor wiring in `main()` (main.py:125-189): scene, view, model registration, node and connection creation, and layout. It is toolkit plumbing whose semantics live in a library outside this model. Only the converter table's contents are modelled.
- The propagation engine and the boundary nodes. MathOperationDataModel, NumberSourceDataModel and NumberDisplayModel are not part of this model, so input slots, default-zero operands, the initial node state and cascades are not modelled. `Run` starts from whatever state it is given.
- Delivery of a value whose kind already matches the port happens in the toolkit library, so it is not modelled. `Convert` covers only lookup through the table.
- `DecimalData.number_as_text`: `'%g'` formatting is floating-point rendering, outside a `real` model.
- float64 and int64: Decimal is a `real`, so rounding, overflow, infinities and NaN are not modelled. Python ints are unbounded, so `int` is exact for them.
- The `lock` properties: they return an attribute whose initialisation is commented out. They are concurrency scaffolding.
- Node names, port captions and the toolkit's `warning` validation level. They are presentation, and `compute` never uses them.
- `IntegerData.number` is a plain method in the source, not a property. It is modelled as a stored field, so the model does not reproduce comparing or operating on a bound-method object. Taken literally, `int(...)`, `float(...)`, `+` and `%` on an IntegerData's `.number` (main.py:34, 71, 109, 122) raise TypeError; every statement about Integer operands holds under the field reading.
- Operations.Compute: requires Integer operands for Modulo, because that node's ports carry IntegerData (main.py:58). Python's `%` on floats, which would store a float inside IntegerData, is not modelled. Modulo's `== 0.0` test is modelled as comparison with zero.
- Operations.Run: steps with `ComputeCorrected`, so for a Modulo node its invariant holds of the repaired step only. The as-written Modulo step breaks coherence (`ModKeepsStaleError`); for the other four operations `ComputeKeepsInvariant` states it of the as-written step.
- Operations.SubUndoesAdd and Operations.DivUndoesMul: hold over `real`, not over IEEE float64, where rounding and overflow (1e200 * 1e200 is infinity) break the inverse.
- IntegerText.Parse: reads only an optional '-' and decimal digits. It is an inverse of the rendering, not a model of Python's more permissive `int(str)`.

## Findings

| source | as written | input that shows it | evidently intended | confidence | as-written member | corrected member |
|---|---|---|---|---|---|---|
| main.py:65-71 | On a non-zero divisor, Modulo sets only the result and never resets validation state or message | Modulo(7, 0) then Modulo(7, 2): Error, "Division by zero error" and result 1 | As in Division (main.py:50-53), success sets Valid and "" | medium, not executed | `Operations.ModKeepsStaleError` | `Operations.ComputeCorrected` |
| main.py:134-137 | The Integer-to-Decimal pair is registered with `decimal_to_integer_converter` | Integer(4) converted for a Decimal port: literally the call raises TypeError (`int` of the bound method `number`); under the field reading of `number` it gives Integer(4), not a Decimal | The Integer-to-Decimal pair uses `integer_to_decimal_converter` | high, not executed | `Converters.TableAsWrittenMisroutes` | `Converters.CorrectedTableWellTyped` |
