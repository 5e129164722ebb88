/**
 The `compute` step of the five calculator nodes, as a pure transition of a
 node's state record under a closed variant of operations.
 */
module Operations {
  import opened NumericData
  import opened PyArith

  datatype Op = Add | Sub | Mul | Div | Mod

  /** The toolkit's node validation level; the calculator uses only these two. */
  datatype Validation = Valid | Error

  /** The fields `compute` reads and writes: `_result`, `_validation_state`, `_validation_message`. */
  datatype NodeState = NodeState(result: Option<Value>, state: Validation, message: string)

  const DivisionByZero: string := "Division by zero error"

  /**
   The Modulo node's ports carry IntegerData, so its operands are Integers.
   The other four nodes read `.number` of whatever they are given, through
   `Real` (an Integer's `number` read as its stored int).
   */
  predicate Fits(op: Op, a: Value, b: Value) {
    op.Mod? ==> a.Integer? && b.Integer?
  }

  /** The zero test both dividing nodes make on the divisor (`== 0.0`). */
  predicate IsZero(v: Value) {
    Real(v) == 0.0
  }

  /**
   One `compute` call, as written. Add, Sub and Mul write only the result;
   Div sets all three fields on both branches; Mod sets all three on a zero
   divisor but only the result otherwise.
   */
  function Compute(op: Op, s: NodeState, a: Value, b: Value): (t: NodeState)
    requires Fits(op, a, b)
    ensures op.Add? ==> t == s.(result := Some(Decimal(Real(a) + Real(b))))
    ensures op.Sub? ==> t == s.(result := Some(Decimal(Real(a) - Real(b))))
    ensures op.Mul? ==> t == s.(result := Some(Decimal(Real(a) * Real(b))))
    ensures (op.Div? || op.Mod?) && IsZero(b) ==> t == NodeState(None, Error, DivisionByZero)
    ensures op.Div? && !IsZero(b) ==> t == NodeState(Some(Decimal(Real(a) / Real(b))), Valid, "")
    ensures op.Mod? && !IsZero(b) ==>
      && t.state == s.state && t.message == s.message
      && t.result.Some? && t.result.value.Integer?
      && var r := t.result.value.n;
         a.n - r == b.n * FloorDiv(a.n, b.n) && Abs(r) < Abs(b.n) && (r == 0 || (r > 0 <==> b.n > 0))
  {
    match op
    case Add => s.(result := Some(Decimal(Real(a) + Real(b))))
    case Sub => s.(result := Some(Decimal(Real(a) - Real(b))))
    case Mul => s.(result := Some(Decimal(Real(a) * Real(b))))
    case Div =>
      if IsZero(b) then NodeState(None, Error, DivisionByZero)
      else NodeState(Some(Decimal(Real(a) / Real(b))), Valid, "")
    case Mod =>
      if IsZero(b) then NodeState(None, Error, DivisionByZero)
      else s.(result := Some(Integer(PyMod(a.n, b.n))))
  }

  /** A state is coherent when an error carries no result and a valid state no message. */
  predicate Coherent(s: NodeState) {
    && (s.state == Error ==> s.result.None?)
    && (s.state == Valid ==> s.message == "")
  }

  /**
   Modulo as the sibling Division node does it: a successful computation
   clears an earlier error.
   */
  function ComputeCorrected(op: Op, s: NodeState, a: Value, b: Value): (t: NodeState)
    requires Fits(op, a, b)
    ensures t.result == Compute(op, s, a, b).result
    ensures op.Div? || op.Mod? ==> Coherent(t) && (t.state == Error <==> t.result.None?)
    ensures !op.Mod? ==> t == Compute(op, s, a, b)
  {
    match op
    case Mod =>
      if IsZero(b) then NodeState(None, Error, DivisionByZero)
      else NodeState(Some(Integer(PyMod(a.n, b.n))), Valid, "")
    case _ => Compute(op, s, a, b)
  }

  /**
   What a node of each kind keeps true between computations: the state is
   coherent, and the three nodes that never report an error stay valid.
   */
  predicate NodeInvariant(op: Op, s: NodeState) {
    Coherent(s) && (op.Add? || op.Sub? || op.Mul? ==> s.state == Valid)
  }

  predicate AllFit(op: Op, inputs: seq<(Value, Value)>) {
    forall i :: 0 <= i < |inputs| ==> Fits(op, inputs[i].0, inputs[i].1)
  }

  /**
   Successive recomputations of one node, one per pair of operands received.
   Each step is `ComputeCorrected`: identical to the source's `compute` for
   Add, Sub, Mul and Div, and the repaired Modulo step for Mod.
   */
  function Run(op: Op, s: NodeState, inputs: seq<(Value, Value)>): (t: NodeState)
    requires AllFit(op, inputs)
    ensures NodeInvariant(op, s) ==> NodeInvariant(op, t)
    ensures op.Add? || op.Sub? || op.Mul? ==> t.state == s.state && t.message == s.message
    ensures |inputs| > 0 ==> t.result == Compute(op, s, inputs[|inputs| - 1].0, inputs[|inputs| - 1].1).result
    decreases |inputs|
  {
    if |inputs| == 0 then s
    else
      var rest := inputs[1..];
      assert |rest| > 0 ==> rest[|rest| - 1] == inputs[|inputs| - 1];
      Run(op, ComputeCorrected(op, s, inputs[0].0, inputs[0].1), rest)
  }

  /**
   An as-written `compute` on Add, Sub, Mul or Div keeps the node invariant;
   only the as-written Mod step can break it (see `ModKeepsStaleError`).
   */
  lemma ComputeKeepsInvariant(op: Op, s: NodeState, a: Value, b: Value)
    requires !op.Mod? && Fits(op, a, b) && NodeInvariant(op, s)
    ensures NodeInvariant(op, Compute(op, s, a, b))
  {
  }

  /**
   Sub undoes Add: (a + b) - b gives back a's value. This holds over the real
   abstraction of float64, not for IEEE doubles, where rounding and overflow
   can lose a.
   */
  lemma SubUndoesAdd(s: NodeState, a: Value, b: Value)
    ensures var sum := Compute(Add, s, a, b).result.value;
            Compute(Sub, s, sum, b).result == Some(Decimal(Real(a)))
  {
  }

  lemma MulDivCancel(x: real, y: real)
    requires y != 0.0
    ensures (x * y) / y == x
  {
  }

  /**
   Div undoes Mul for a non-zero factor, and leaves the node valid. This holds
   over the real abstraction of float64; with IEEE doubles, 1e200 * 1e200
   overflows to infinity and dividing by 1e200 does not give 1e200 back.
   */
  lemma DivUndoesMul(s: NodeState, a: Value, b: Value)
    requires !IsZero(b)
    ensures var product := Compute(Mul, s, a, b).result.value;
            Compute(Div, s, product, b) == NodeState(Some(Decimal(Real(a))), Valid, "")
  {
    var x, y := Real(a), Real(b);
    MulDivCancel(x, y);
    var product := Compute(Mul, s, a, b).result.value;
    assert Real(product) == x * y;
  }

  /** Add and Mul do not depend on the order of their operands. */
  lemma AddMulCommute(op: Op, s: NodeState, a: Value, b: Value)
    requires op.Add? || op.Mul?
    ensures Compute(op, s, a, b) == Compute(op, s, b, a)
  {
  }

  /** A Div node that was in error returns to valid, with no message, once the divisor is non-zero. */
  lemma DivClearsError(a: Value, b: Value, a': Value, b': Value)
    requires IsZero(b) && !IsZero(b')
    ensures var failed := Compute(Div, NodeState(None, Valid, ""), a, b);
            failed.state == Error && failed.message == DivisionByZero
            && Compute(Div, failed, a', b') == NodeState(Some(Decimal(Real(a') / Real(b'))), Valid, "")
  {
  }

  /**
   As written, a Mod node that once divided by zero keeps its error and
   message next to a fresh result: Modulo(7, 0) then Modulo(7, 2).
   */
  lemma ModKeepsStaleError()
    ensures var s0 := NodeState(None, Valid, "");
            var s1 := Compute(Mod, s0, Integer(7), Integer(0));
            var s2 := Compute(Mod, s1, Integer(7), Integer(2));
            && Coherent(s0) && s2 == NodeState(Some(Integer(1)), Error, DivisionByZero)
            && !Coherent(s2)
  {
    assert PyMod(7, 2) == 1 by {
      PyModUnique(7, 2, 3, 1);
    }
  }

  /** The corrected Mod node, fed the same operands, ends valid with the same result. */
  lemma ModCorrectedClearsError()
    ensures Run(Mod, NodeState(None, Valid, ""), [(Integer(7), Integer(0)), (Integer(7), Integer(2))])
         == NodeState(Some(Integer(1)), Valid, "")
  {
    var inputs := [(Integer(7), Integer(0)), (Integer(7), Integer(2))];
    assert PyMod(7, 2) == 1 by {
      PyModUnique(7, 2, 3, 1);
    }
    assert inputs[1..] == [(Integer(7), Integer(2))];
    assert inputs[1..][1..] == [];
  }

  /** Concrete cases: Addition(1.0, 2.0), Division(5.0, 0.0), Modulo(7, 2), Modulo(7, -2). */
  lemma Scenarios(s: NodeState)
    ensures Compute(Add, s, Decimal(1.0), Decimal(2.0)).result == Some(Decimal(3.0))
    ensures Compute(Div, s, Decimal(5.0), Decimal(0.0)) == NodeState(None, Error, DivisionByZero)
    ensures Compute(Mod, s, Integer(7), Integer(2)).result == Some(Integer(1))
    ensures Compute(Mod, s, Integer(7), Integer(-2)).result == Some(Integer(-1))
  {
    PyModUnique(7, 2, 3, 1);
    PyModUnique(7, -2, -4, -1);
  }
}
