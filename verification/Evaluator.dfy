/** Requirement operators over scalars, with Python's equality, ordering and substring test. */
module Evaluator {
  import opened Models

  /** Which operand check raised. */
  datatype EvaluationError =
    | NotNumeric(operand: string)
    | ExpectedMustBeScalar
    | NeedsTwoBoundaries
    | BoundariesNotOrdered
    | NeedsStrings

  /** A boolean is not a number. */
  function Numeric(value: Scalar, operand: string): Result<real, EvaluationError> {
    match value
    case Int(i) => Ok(i as real)
    case Float(x) => Ok(x)
    case _ => Err(NotNumeric(operand))
  }

  function ExpectedScalar(value: Expected): Result<Scalar, EvaluationError> {
    if value.Many? then Err(ExpectedMustBeScalar) else Ok(value.scalar)
  }

  /** `==` compares booleans, integers and floats by value. */
  function EqualityValue(s: Scalar): Option<real> {
    match s
    case Bool(b) => Some(if b then 1.0 else 0.0)
    case Int(i) => Some(i as real)
    case Float(x) => Some(x)
    case _ => None
  }

  predicate SameScalar(a: Scalar, b: Scalar) {
    a == b || (EqualityValue(a).Some? && EqualityValue(a) == EqualityValue(b))
  }

  predicate Same(actual: Scalar, expected: Expected) {
    expected.Single? && SameScalar(actual, expected.scalar)
  }

  predicate OccursAt(needle: string, text: string, i: int) {
    0 <= i <= |text| - |needle| && text[i..i + |needle|] == needle
  }

  predicate OccursIn(needle: string, text: string) {
    exists i :: 0 <= i <= |text| && OccursAt(needle, text, i)
  }

  /** The two operands of an ordering operator; the actual value is checked first. */
  function Operands(actual: Scalar, expected: Expected): Result<(real, real), EvaluationError> {
    var left :- Numeric(actual, "actual");
    var scalar :- ExpectedScalar(expected);
    var right :- Numeric(scalar, "expected");
    Ok((left, right))
  }

  function PassedBetween(actual: Scalar, expected: Expected): Result<bool, EvaluationError> {
    if expected.Single? || |expected.items| != 2 then Err(NeedsTwoBoundaries)
    else
      var lower :- Numeric(expected.items[0], "lower boundary");
      var upper :- Numeric(expected.items[1], "upper boundary");
      if lower > upper then Err(BoundariesNotOrdered)
      else
        var x :- Numeric(actual, "actual");
        Ok(lower <= x <= upper)
  }

  function Passed(op: Operator, actual: Scalar, expected: Expected): Result<bool, EvaluationError> {
    if op == Present then Ok(actual != Null)
    else if actual == Null then Ok(false)
    else
      match op
      case Equals => Ok(Same(actual, expected))
      case NotEquals => Ok(!Same(actual, expected))
      case GreaterThan => (var o :- Operands(actual, expected); Ok(o.0 > o.1))
      case GreaterThanOrEqual => (var o :- Operands(actual, expected); Ok(o.0 >= o.1))
      case LessThan => (var o :- Operands(actual, expected); Ok(o.0 < o.1))
      case LessThanOrEqual => (var o :- Operands(actual, expected); Ok(o.0 <= o.1))
      case Between => PassedBetween(actual, expected)
      case Contains =>
        if !actual.Text? || expected.Many? || !expected.scalar.Text? then Err(NeedsStrings)
        else Ok(OccursIn(expected.scalar.s, actual.s))
  }

  /** An absent metric reads as `Null`. */
  function Reading(metrics: map<string, Scalar>, metric: string): Scalar {
    if metric in metrics then metrics[metric] else Null
  }

  function EvaluateRequirement(r: Requirement, metrics: map<string, Scalar>): Result<RequirementEvaluation, EvaluationError> {
    var actual := Reading(metrics, r.metric);
    var passed :- Passed(r.op, actual, r.expected);
    Ok(RequirementEvaluation(r, actual, passed))
  }

  // ---- What the operators mean ----

  ghost predicate IsNumber(s: Scalar, x: real) {
    s == Float(x) || exists i :: s == Int(i) && x == i as real
  }

  /** Equal as values: identical, or numbers (with true as one and false as zero) of one value. */
  ghost predicate EqualValues(a: Scalar, b: Scalar) {
    || a == b
    || exists x :: CountsAs(a, x) && CountsAs(b, x)
  }

  ghost predicate CountsAs(s: Scalar, x: real) {
    IsNumber(s, x) || (s == Bool(true) && x == 1.0) || (s == Bool(false) && x == 0.0)
  }

  /** The metric is there and stands in the stated relation to the expected value. */
  ghost predicate Holds(op: Operator, actual: Scalar, expected: Expected) {
    actual != Null &&
    match op
    case Present => true
    case Equals => exists e :: expected == Single(e) && EqualValues(actual, e)
    case NotEquals => forall e :: expected == Single(e) ==> !EqualValues(actual, e)
    case GreaterThan => exists e, x, y :: expected == Single(e) && IsNumber(actual, x) && IsNumber(e, y) && x > y
    case GreaterThanOrEqual => exists e, x, y :: expected == Single(e) && IsNumber(actual, x) && IsNumber(e, y) && x >= y
    case LessThan => exists e, x, y :: expected == Single(e) && IsNumber(actual, x) && IsNumber(e, y) && x < y
    case LessThanOrEqual => exists e, x, y :: expected == Single(e) && IsNumber(actual, x) && IsNumber(e, y) && x <= y
    case Between =>
      exists lo, hi, a, x, b ::
        expected == Many([lo, hi]) && IsNumber(lo, a) && IsNumber(actual, x) && IsNumber(hi, b) && a <= x <= b
    case Contains =>
      exists before, needle, after :: expected == Single(Text(needle)) && actual == Text(before + needle + after)
  }

  /** The operands have the types and the shape the operator asks for. */
  ghost predicate Comparable(op: Operator, actual: Scalar, expected: Expected) {
    match op
    case Present | Equals | NotEquals => true
    case GreaterThan | GreaterThanOrEqual | LessThan | LessThanOrEqual =>
      exists e, x, y :: expected == Single(e) && IsNumber(actual, x) && IsNumber(e, y)
    case Between =>
      exists lo, hi, a, x, b ::
        expected == Many([lo, hi]) && IsNumber(lo, a) && IsNumber(actual, x) && IsNumber(hi, b) && a <= b
    case Contains => actual.Text? && exists needle :: expected == Single(Text(needle))
  }

  lemma NumericIs(s: Scalar, operand: string)
    ensures forall x :: Numeric(s, operand) == Ok(x) <==> IsNumber(s, x)
  {
  }

  lemma EqualityIs(a: Scalar, b: Scalar)
    ensures SameScalar(a, b) <==> EqualValues(a, b)
  {
    forall s: Scalar, x: real
      ensures CountsAs(s, x) <==> EqualityValue(s) == Some(x)
    {
    }
  }

  lemma OccursMeans(needle: string, text: string)
    ensures OccursIn(needle, text) <==> exists before, after :: text == before + needle + after
  {
    if OccursIn(needle, text) {
      var i :| 0 <= i <= |text| && OccursAt(needle, text, i);
      assert text == text[..i] + needle + text[i + |needle|..];
    }
    forall before: string, after: string | text == before + needle + after
      ensures OccursIn(needle, text)
    {
      assert OccursAt(needle, text, |before|);
    }
  }

  lemma OrderingMeans(op: Operator, actual: Scalar, expected: Expected)
    requires op in {GreaterThan, GreaterThanOrEqual, LessThan, LessThanOrEqual}
    ensures Passed(op, actual, expected) == Ok(true) <==> Holds(op, actual, expected)
    ensures Passed(op, actual, expected).Err? <==> actual != Null && !Comparable(op, actual, expected)
  {
    NumericIs(actual, "actual");
    if expected.Single? {
      NumericIs(expected.scalar, "expected");
    }
    hide IsNumber, Numeric;
  }

  lemma BetweenMeans(actual: Scalar, expected: Expected)
    ensures Passed(Between, actual, expected) == Ok(true) <==> Holds(Between, actual, expected)
    ensures Passed(Between, actual, expected).Err? <==> actual != Null && !Comparable(Between, actual, expected)
  {
    NumericIs(actual, "actual");
    if expected.Many? && |expected.items| == 2 {
      var lo, hi := expected.items[0], expected.items[1];
      assert expected.items == [lo, hi];
      NumericIs(lo, "lower boundary");
      NumericIs(hi, "upper boundary");
    }
    hide IsNumber, Numeric;
  }

  /** Every operator passes exactly when the metric is present and the relation holds, and raises
      exactly when a present metric meets operands the operator cannot compare. An absent metric
      never passes, and hides a requirement that could not be evaluated. */
  lemma OperatorsMean(op: Operator, actual: Scalar, expected: Expected)
    ensures Passed(op, actual, expected) == Ok(true) <==> Holds(op, actual, expected)
    ensures Passed(op, actual, expected).Err? <==> actual != Null && !Comparable(op, actual, expected)
  {
    match op
    case Present =>
    case Equals | NotEquals =>
      if expected.Single? {
        EqualityIs(actual, expected.scalar);
      }
      hide SameScalar, EqualValues;
    case GreaterThan | GreaterThanOrEqual | LessThan | LessThanOrEqual => OrderingMeans(op, actual, expected);
    case Between => BetweenMeans(actual, expected);
    case Contains =>
      if actual.Text? && expected.Single? && expected.scalar.Text? {
        OccursMeans(expected.scalar.s, actual.s);
      }
      hide OccursIn;
  }

  // ---- Laws between operators ----

  /** `between` is the conjunction of the two one-sided operators, as long as the boundaries are in
      order; with boundaries out of order it raises although both one-sided operators answer. */
  lemma BetweenIsBothBounds(actual: Scalar, lo: Scalar, hi: Scalar, a: real, b: real)
    requires IsNumber(lo, a) && IsNumber(hi, b)
    requires exists x :: IsNumber(actual, x)
    ensures var lower := Passed(GreaterThanOrEqual, actual, Single(lo));
            var upper := Passed(LessThanOrEqual, actual, Single(hi));
            && lower.Ok? && upper.Ok?
            && Passed(Between, actual, Many([lo, hi])) ==
               if a > b then Err(BoundariesNotOrdered) else Ok(lower.value && upper.value)
  {
  }

  function Opposite(op: Operator): Operator
    requires op !in {Between, Present, Contains}
  {
    match op
    case Equals => NotEquals
    case NotEquals => Equals
    case GreaterThan => LessThanOrEqual
    case LessThanOrEqual => GreaterThan
    case LessThan => GreaterThanOrEqual
    case GreaterThanOrEqual => LessThan
  }

  /** On a present metric an operator and its opposite raise alike and otherwise disagree; on an
      absent one they agree: both fail. */
  lemma OppositesDisagree(op: Operator, actual: Scalar, expected: Expected)
    requires op !in {Between, Present, Contains}
    ensures var one, other := Passed(op, actual, expected), Passed(Opposite(op), actual, expected);
            if actual == Null then one == Ok(false) == other
            else if one.Err? then other == one
            else other == Ok(!one.value)
  {
  }
}
