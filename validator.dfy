/** Structural validation of a metric and its expression tree.

    The validator throws on the first violated rule; the error carries a
    field path. It is modelled as functions returning `Pass` or
    `Fail(error)`, evaluated in the order of the checks of the source. The
    error messages are not modelled: each error is identified by the rule
    it reports and by its field. As in the extractor, the `in` operator on
    null or a primitive throws a `TypeError`. */
module ExpressionValidator {
  import opened Wrappers
  import opened Json
  import opened Entities
  import opened ExpressionTypes

  /** The rule a `MetricExpressionValidationError` reports. */
  datatype Rule =
    | CodeRequired
    | ExpressionTypeRequired
    | ExpressionJsonRequired
    | StructureMismatch
    | UnknownExpressionType
    | OpRequired
    | InvalidOp
    | OperandRequired
    | InvalidScale
    | InvalidWindow
    | OperandsArrayRequired
    | OperandsEmpty
    | InvalidSeriesCode
    | NotAnExpression
    | InvalidNestedStructure

  datatype ValidationFailure =
    | ValidationError(rule: Rule, field: string)
    | TypeError

  // ---------------------------------------------------------------------
  // Field tests, on an object or array (property reads on arrays give
  // undefined for every key used here)

  /** `Object.values(ops).includes(expression.op)`. */
  predicate OpIn(e: Json, ops: set<string>) {
    HasKey(e, "op") && e.fields["op"].JStr? && e.fields["op"].s in ops
  }

  /** An absent `scale`, or a number greater than 0; JSON `null` is not
      `undefined` and is rejected. */
  predicate ScaleAcceptable(e: Json) {
    HasKey(e, "scale") ==> e.fields["scale"].JNum? && e.fields["scale"].n > 0.0
  }

  /** `typeof window === "number" && window > 0`. */
  predicate WindowPositive(e: Json) {
    HasKey(e, "window") && e.fields["window"].JNum? && e.fields["window"].n > 0.0
  }

  /** A string `seriesCode` that is not empty after trimming. */
  predicate SeriesCodeAcceptable(v: Json)
    requires HasKey(v, "seriesCode")
  {
    v.fields["seriesCode"].JStr? && !IsBlank(v.fields["seriesCode"].s)
  }

  function OperandPath(i: nat): string {
    "operands[" + NatToString(i) + "]"
  }

  function Check(ok: bool, rule: Rule, field: string): Outcome<ValidationFailure> {
    if ok then Pass else Fail(ValidationError(rule, field))
  }

  // ---------------------------------------------------------------------
  // The validator

  /** `validateMetric`. */
  function ValidateMetric(metric: Metric): Outcome<ValidationFailure> {
    if IsBlank(metric.code) then Fail(ValidationError(CodeRequired, "code"))
    else if metric.expressionType == "" then Fail(ValidationError(ExpressionTypeRequired, "expressionType"))
    else if !Truthy(metric.expressionJson) then Fail(ValidationError(ExpressionJsonRequired, "expressionJson"))
    else
      :- ValidateExpressionTypeMatch(metric.expressionType, metric.expressionJson);
      ValidateExpressionStructure(metric.expressionJson, metric.expressionType)
  }

  /** `validateExpressionTypeMatch`: the keys the declared type needs. */
  function ValidateExpressionTypeMatch(expressionType: string, expressionJson: Json): Outcome<ValidationFailure> {
    if !IsObjectLike(expressionJson) then Fail(TypeError)
    else
      var hasOp, hasLeft, hasRight := HasKey(expressionJson, "op"), HasKey(expressionJson, "left"), HasKey(expressionJson, "right");
      var hasSeries, hasWindow := HasKey(expressionJson, "series"), HasKey(expressionJson, "window");
      var hasOperands := HasKey(expressionJson, "operands");
      if expressionType == SERIES_MATH then
        Check(hasOp && hasLeft && hasRight, StructureMismatch, "expressionJson")
      else if expressionType == WINDOW_OP then
        Check(hasOp && hasSeries && hasWindow, StructureMismatch, "expressionJson")
      else if expressionType == COMPOSITE then
        Check(hasOp && hasOperands, StructureMismatch, "expressionJson")
      else Fail(ValidationError(UnknownExpressionType, "expressionType"))
  }

  /** `validateExpressionStructure`: dispatch on the declared type. */
  function ValidateExpressionStructure(expressionJson: Json, expressionType: string): Outcome<ValidationFailure>
    requires IsObjectLike(expressionJson)
  {
    if expressionType == SERIES_MATH then ValidateSeriesMathExpression(expressionJson)
    else if expressionType == WINDOW_OP then ValidateWindowOpExpression(expressionJson)
    else if expressionType == COMPOSITE then ValidateCompositeExpression(expressionJson)
    else Pass
  }

  function ValidateSeriesMathExpression(e: Json): Outcome<ValidationFailure>
    requires IsObjectLike(e)
    decreases e, 1
  {
    var hasOp := Check(TruthyField(e, "op"), OpRequired, "expressionJson.op");
    if hasOp.Fail? then hasOp else
    :- Check(OpIn(e, SERIES_MATH_OPS), InvalidOp, "expressionJson.op");
    :- Check(TruthyField(e, "left"), OperandRequired, "expressionJson.left");
    :- Check(TruthyField(e, "right"), OperandRequired, "expressionJson.right");
    :- ValidateOperand(e.fields["left"], "left");
    :- ValidateOperand(e.fields["right"], "right");
    Check(ScaleAcceptable(e), InvalidScale, "expressionJson.scale")
  }

  function ValidateWindowOpExpression(e: Json): Outcome<ValidationFailure>
    requires IsObjectLike(e)
    decreases e, 1
  {
    var hasOp := Check(TruthyField(e, "op"), OpRequired, "expressionJson.op");
    if hasOp.Fail? then hasOp else
    :- Check(OpIn(e, WINDOW_OPS), InvalidOp, "expressionJson.op");
    :- Check(TruthyField(e, "series"), OperandRequired, "expressionJson.series");
    :- Check(WindowPositive(e), InvalidWindow, "expressionJson.window");
    ValidateOperand(e.fields["series"], "series")
  }

  function ValidateCompositeExpression(e: Json): Outcome<ValidationFailure>
    requires IsObjectLike(e)
    decreases e, 1
  {
    var hasOp := Check(TruthyField(e, "op"), OpRequired, "expressionJson.op");
    if hasOp.Fail? then hasOp else
    :- Check(OpIn(e, COMPOSITE_OPS), InvalidOp, "expressionJson.op");
    :- Check(HasKey(e, "operands") && e.fields["operands"].JArr?, OperandsArrayRequired, "expressionJson.operands");
    :- Check(|e.fields["operands"].items| != 0, OperandsEmpty, "expressionJson.operands");
    ValidateOperandsFrom(e, 0)
  }

  /** The `forEach` over the operands, from index `i` on. */
  function ValidateOperandsFrom(e: Json, i: nat): Outcome<ValidationFailure>
    requires HasKey(e, "operands") && e.fields["operands"].JArr?
    requires i <= |e.fields["operands"].items|
    decreases e, 0, |e.fields["operands"].items| - i
  {
    var operands := e.fields["operands"].items;
    if i == |operands| then Pass
    else
      :- ValidateOperand(operands[i], OperandPath(i));
      ValidateOperandsFrom(e, i + 1)
  }

  /** `validateOperand(operand, fieldPath)`: a series reference, or a nested
      expression classified by the keys it has. */
  function ValidateOperand(v: Json, path: string): Outcome<ValidationFailure>
    decreases v, 2
  {
    if !IsObjectLike(v) then Fail(TypeError)
    else if HasKey(v, "seriesCode") then
      Check(SeriesCodeAcceptable(v), InvalidSeriesCode, "expressionJson." + path + ".seriesCode")
    else if !HasKey(v, "op") then Fail(ValidationError(NotAnExpression, "expressionJson." + path))
    else if HasKey(v, "left") && HasKey(v, "right") then ValidateSeriesMathExpression(v)
    else if HasKey(v, "series") && HasKey(v, "window") then ValidateWindowOpExpression(v)
    else if HasKey(v, "operands") then ValidateCompositeExpression(v)
    else Fail(ValidationError(InvalidNestedStructure, "expressionJson." + path))
  }

  // ---------------------------------------------------------------------
  // The grammar the validator accepts, stated declaratively

  predicate WellFormedOperand(v: Json)
    decreases v, 2
  {
    IsObjectLike(v) &&
    (if HasKey(v, "seriesCode") then SeriesCodeAcceptable(v)
     else (HasKey(v, "op") &&
       (if HasKey(v, "left") && HasKey(v, "right") then WellFormedSeriesMath(v)
        else if HasKey(v, "series") && HasKey(v, "window") then WellFormedWindowOp(v)
        else HasKey(v, "operands") && WellFormedComposite(v))))
  }

  predicate WellFormedSeriesMath(e: Json)
    decreases e, 1
  {
    OpIn(e, SERIES_MATH_OPS)
    && TruthyField(e, "left") && TruthyField(e, "right")
    && WellFormedOperand(e.fields["left"]) && WellFormedOperand(e.fields["right"])
    && ScaleAcceptable(e)
  }

  predicate WellFormedWindowOp(e: Json)
    decreases e, 1
  {
    OpIn(e, WINDOW_OPS) && TruthyField(e, "series") && WindowPositive(e)
    && WellFormedOperand(e.fields["series"])
  }

  predicate WellFormedComposite(e: Json)
    decreases e, 1
  {
    OpIn(e, COMPOSITE_OPS) && HasKey(e, "operands") && e.fields["operands"].JArr?
    && |e.fields["operands"].items| > 0
    && forall i :: 0 <= i < |e.fields["operands"].items| ==> WellFormedOperand(e.fields["operands"].items[i])
  }

  /** A metric the validator accepts: a non-blank code, a declared type whose
      keys are present, and a well-formed tree of that type. */
  predicate WellFormedMetric(m: Metric) {
    var j := m.expressionJson;
    !IsBlank(m.code) && IsObjectLike(j)
    && ((m.expressionType == SERIES_MATH && HasKey(j, "op") && HasKey(j, "left") && HasKey(j, "right")
         && WellFormedSeriesMath(j))
     || (m.expressionType == WINDOW_OP && HasKey(j, "op") && HasKey(j, "series") && HasKey(j, "window")
         && WellFormedWindowOp(j))
     || (m.expressionType == COMPOSITE && HasKey(j, "op") && HasKey(j, "operands")
         && WellFormedComposite(j)))
  }

  // ---------------------------------------------------------------------
  // The validator against the grammar

  lemma OpInIsTruthy(e: Json, ops: set<string>)
    requires "" !in ops
    ensures OpIn(e, ops) ==> TruthyField(e, "op")
  {
  }

  lemma {:induction false} ValidateOperandAccepts(v: Json, path: string)
    ensures ValidateOperand(v, path).Pass? <==> WellFormedOperand(v)
    decreases v, 2
  {
    if IsObjectLike(v) && !HasKey(v, "seriesCode") && HasKey(v, "op") {
      if HasKey(v, "left") && HasKey(v, "right") {
        ValidateSeriesMathAccepts(v);
      } else if HasKey(v, "series") && HasKey(v, "window") {
        ValidateWindowOpAccepts(v);
      } else if HasKey(v, "operands") {
        ValidateCompositeAccepts(v);
      }
    }
  }

  lemma {:induction false} ValidateSeriesMathAccepts(e: Json)
    requires IsObjectLike(e)
    ensures ValidateSeriesMathExpression(e).Pass? <==> WellFormedSeriesMath(e)
    decreases e, 1
  {
    OpInIsTruthy(e, SERIES_MATH_OPS);
    if TruthyField(e, "left") && TruthyField(e, "right") {
      ValidateOperandAccepts(e.fields["left"], "left");
      ValidateOperandAccepts(e.fields["right"], "right");
    }
  }

  lemma {:induction false} ValidateWindowOpAccepts(e: Json)
    requires IsObjectLike(e)
    ensures ValidateWindowOpExpression(e).Pass? <==> WellFormedWindowOp(e)
    decreases e, 1
  {
    OpInIsTruthy(e, WINDOW_OPS);
    if TruthyField(e, "series") {
      ValidateOperandAccepts(e.fields["series"], "series");
    }
  }

  lemma {:induction false} ValidateCompositeAccepts(e: Json)
    requires IsObjectLike(e)
    ensures ValidateCompositeExpression(e).Pass? <==> WellFormedComposite(e)
    decreases e, 1
  {
    OpInIsTruthy(e, COMPOSITE_OPS);
    if HasKey(e, "operands") && e.fields["operands"].JArr? {
      ValidateOperandsFromAccepts(e, 0);
    }
  }

  lemma {:induction false} ValidateOperandsFromAccepts(e: Json, i: nat)
    requires HasKey(e, "operands") && e.fields["operands"].JArr?
    requires i <= |e.fields["operands"].items|
    ensures ValidateOperandsFrom(e, i).Pass? <==>
      forall k :: i <= k < |e.fields["operands"].items| ==> WellFormedOperand(e.fields["operands"].items[k])
    decreases e, 0, |e.fields["operands"].items| - i
  {
    var operands := e.fields["operands"].items;
    if i < |operands| {
      ValidateOperandAccepts(operands[i], OperandPath(i));
      ValidateOperandsFromAccepts(e, i + 1);
    }
  }

  /** The validator accepts a metric exactly when it is well formed. */
  lemma ValidateMetricAccepts(m: Metric)
    ensures ValidateMetric(m).Pass? <==> WellFormedMetric(m)
  {
    var j := m.expressionJson;
    if IsObjectLike(j) {
      ValidateSeriesMathAccepts(j);
      ValidateWindowOpAccepts(j);
      ValidateCompositeAccepts(j);
    }
  }

  /** A blank or whitespace-only code is reported, with field "code", before
      anything about the expression is looked at. */
  lemma BlankCodeRejectedFirst(m: Metric)
    requires IsBlank(m.code)
    ensures ValidateMetric(m) == Fail(ValidationError(CodeRequired, "code"))
  {
  }

  /** The keys each declared type needs, and the rejection of any other type
      name (for an object or array; a primitive makes `in` throw). */
  lemma TypeMatchRequiresKeys(t: string, j: Json)
    requires IsObjectLike(j)
    ensures ValidateExpressionTypeMatch(t, j).Pass? <==>
      (t == SERIES_MATH && HasKey(j, "op") && HasKey(j, "left") && HasKey(j, "right"))
      || (t == WINDOW_OP && HasKey(j, "op") && HasKey(j, "series") && HasKey(j, "window"))
      || (t == COMPOSITE && HasKey(j, "op") && HasKey(j, "operands"))
    ensures t !in {SERIES_MATH, WINDOW_OP, COMPOSITE} ==>
      ValidateExpressionTypeMatch(t, j) == Fail(ValidationError(UnknownExpressionType, "expressionType"))
    ensures t in {SERIES_MATH, WINDOW_OP, COMPOSITE} && ValidateExpressionTypeMatch(t, j).Fail? ==>
      ValidateExpressionTypeMatch(t, j) == Fail(ValidationError(StructureMismatch, "expressionJson"))
  {
  }

  /** What an accepted metric's root node satisfies: an operator of the
      declared type's enumeration, a positive scale if present, a positive
      window, and a non-empty operand array. */
  lemma AcceptedRootConstraints(m: Metric)
    requires ValidateMetric(m).Pass?
    ensures IsObjectLike(m.expressionJson)
    ensures m.expressionType == SERIES_MATH ==>
      OpIn(m.expressionJson, SERIES_MATH_OPS) && ScaleAcceptable(m.expressionJson)
    ensures m.expressionType == WINDOW_OP ==>
      OpIn(m.expressionJson, WINDOW_OPS) && WindowPositive(m.expressionJson)
    ensures m.expressionType == COMPOSITE ==>
      OpIn(m.expressionJson, COMPOSITE_OPS) && OperandsNonEmpty(m.expressionJson)
  {
    ValidateMetricAccepts(m);
  }

  predicate OperandsNonEmpty(j: Json) {
    HasKey(j, "operands") && j.fields["operands"].JArr? && |j.fields["operands"].items| > 0
  }

  /** A reference whose `seriesCode` is not a non-blank string is reported at
      `expressionJson.<path>.seriesCode`; a non-reference without `op` at
      `expressionJson.<path>`. */
  lemma OperandErrorPaths(v: Json, path: string)
    requires IsObjectLike(v)
    ensures HasKey(v, "seriesCode") ==>
      (ValidateOperand(v, path).Pass? <==> SeriesCodeAcceptable(v))
      && (ValidateOperand(v, path).Fail? ==>
            ValidateOperand(v, path) == Fail(ValidationError(InvalidSeriesCode, "expressionJson." + path + ".seriesCode")))
    ensures !HasKey(v, "seriesCode") && !HasKey(v, "op") ==>
      ValidateOperand(v, path) == Fail(ValidationError(NotAnExpression, "expressionJson." + path))
  {
  }

  /** Operand `i` of a composite root is reported under `operands[i]`. */
  lemma CompositeOperandPathExample()
    ensures ValidateCompositeExpression(JObj(map[
      "op" := JStr("sum"),
      "operands" := JArr([JObj(map["seriesCode" := JStr("a")]),
                          JObj(map["seriesCode" := JStr(" ")])])]))
      == Fail(ValidationError(InvalidSeriesCode, "expressionJson.operands[1].seriesCode"))
  {
    var ops := [JObj(map["seriesCode" := JStr("a")]), JObj(map["seriesCode" := JStr(" ")])];
    var e := JObj(map["op" := JStr("sum"), "operands" := JArr(ops)]);
    assert SeriesCodeAcceptable(ops[0]) by { assert !IsJsWhitespace("a"[0]); }
    assert !SeriesCodeAcceptable(ops[1]);
    assert NatToString(1) == "1";
    assert OperandPath(1) == "operands[1]";
    assert ValidateOperandsFrom(e, 2) == Pass;
    assert "expressionJson." + "operands[1]" + ".seriesCode" == "expressionJson.operands[1].seriesCode";
    assert ValidateOperand(ops[1], OperandPath(1))
      == Fail(ValidationError(InvalidSeriesCode, "expressionJson.operands[1].seriesCode"));
    assert ValidateOperandsFrom(e, 1) == Fail(ValidationError(InvalidSeriesCode, "expressionJson.operands[1].seriesCode"));
    assert ValidateOperandsFrom(e, 0) == ValidateOperandsFrom(e, 1);
  }
}
