/** The emission-time check of an expression tree: every node carrying both
    `op` and `series` must have a numeric `window` of at least 1. It walks
    `left`, `right`, `series` and the elements of `operands`, and treats a
    node as a window operation by a different test than the extractor and
    the validator do. */
module WindowCheck {
  import opened Wrappers
  import opened Json
  import opened Errors
  import ExpressionValidator
  import DependencyExtractor
  import OrderedSet

  /** `typeof v === "object"`, which is also true of null. */
  predicate TypeofObject(v: Json) {
    v.JNull? || v.JArr? || v.JObj?
  }

  /** The rule at one node. */
  predicate NodeWindowOk(n: Json) {
    HasKey(n, "op") && HasKey(n, "series") ==>
      HasKey(n, "window") && n.fields["window"].JNum? && n.fields["window"].n >= 1.0
  }

  /** The rule at one node, with the error the source throws: a missing or
      null window, or a window that is not a number or is below 1. */
  function CheckNode(e: Json, metricCode: string, path: string): (r: Outcome<Failure>)
    ensures r.Pass? <==> NodeWindowOk(e)
  {
    if !(HasKey(e, "op") && HasKey(e, "series")) then Pass
    else if !HasKey(e, "window") || e.fields["window"].JNull? then Fail(WindowMissing(metricCode, path))
    else if !e.fields["window"].JNum? || e.fields["window"].n < 1.0 then Fail(WindowInvalid(metricCode, path))
    else Pass
  }

  function OperandsPath(path: string, i: nat): string {
    path + ".operands[" + NatToString(i) + "]"
  }

  /** `validateWindowOpsInExpression(expression, metricCode, path)`: falsy
      values and primitives pass; a node is checked, then its children in the
      order left, right, series, operands. */
  function ValidateWindowOps(e: Json, metricCode: string, path: string): (r: Outcome<Failure>)
    ensures r.Fail? ==> (r.error.WindowMissing? || r.error.WindowInvalid?) && r.error.metricCode == metricCode
    decreases e, 1
  {
    if !IsObjectLike(e) then Pass
    else
      :- CheckNode(e, metricCode, path);
      :- (if HasKey(e, "left") then ValidateWindowOps(e.fields["left"], metricCode, path + ".left") else Pass);
      :- (if HasKey(e, "right") then ValidateWindowOps(e.fields["right"], metricCode, path + ".right") else Pass);
      :- (if HasKey(e, "series") && TypeofObject(e.fields["series"])
          then ValidateWindowOps(e.fields["series"], metricCode, path + ".series") else Pass);
      if HasKey(e, "operands") && e.fields["operands"].JArr? then ValidateOperandsFrom(e, 0, metricCode, path)
      else Pass
  }

  /** The `forEach` over `operands`, from index `i` on. */
  function ValidateOperandsFrom(e: Json, i: nat, metricCode: string, path: string): (r: Outcome<Failure>)
    requires HasKey(e, "operands") && e.fields["operands"].JArr?
    requires i <= |e.fields["operands"].items|
    ensures r.Fail? ==> (r.error.WindowMissing? || r.error.WindowInvalid?) && r.error.metricCode == metricCode
    decreases e, 0, |e.fields["operands"].items| - i
  {
    var operands := e.fields["operands"].items;
    if i == |operands| then Pass
    else
      :- ValidateWindowOps(operands[i], metricCode, OperandsPath(path, i));
      ValidateOperandsFrom(e, i + 1, metricCode, path)
  }

  // ---------------------------------------------------------------------
  // The nodes the check visits, independently of the check

  function Nodes(e: Json): seq<Json>
    decreases e, 1
  {
    if !IsObjectLike(e) then []
    else
      [e]
      + (if HasKey(e, "left") then Nodes(e.fields["left"]) else [])
      + (if HasKey(e, "right") then Nodes(e.fields["right"]) else [])
      + (if HasKey(e, "series") && TypeofObject(e.fields["series"]) then Nodes(e.fields["series"]) else [])
      + (if HasKey(e, "operands") && e.fields["operands"].JArr? then NodesFrom(e, 0) else [])
  }

  function NodesFrom(e: Json, i: nat): seq<Json>
    requires HasKey(e, "operands") && e.fields["operands"].JArr?
    requires i <= |e.fields["operands"].items|
    decreases e, 0, |e.fields["operands"].items| - i
  {
    var operands := e.fields["operands"].items;
    if i == |operands| then [] else Nodes(operands[i]) + NodesFrom(e, i + 1)
  }

  predicate AllOk(ns: seq<Json>) {
    forall n :: n in ns ==> NodeWindowOk(n)
  }

  lemma AllOkConcat(a: seq<Json>, b: seq<Json>)
    ensures AllOk(a + b) <==> AllOk(a) && AllOk(b)
  {
    assert forall n :: n in a + b <==> n in a || n in b;
  }

  /** The check passes exactly when every visited node keeps the rule, at any
      depth, whatever the path. */
  lemma {:induction false} ValidateWindowOpsPasses(e: Json, metricCode: string, path: string)
    ensures ValidateWindowOps(e, metricCode, path).Pass? <==> AllOk(Nodes(e))
    decreases e, 1
  {
    if IsObjectLike(e) {
      var l := if HasKey(e, "left") then Nodes(e.fields["left"]) else [];
      var r := if HasKey(e, "right") then Nodes(e.fields["right"]) else [];
      var s := if HasKey(e, "series") && TypeofObject(e.fields["series"]) then Nodes(e.fields["series"]) else [];
      var o := if HasKey(e, "operands") && e.fields["operands"].JArr? then NodesFrom(e, 0) else [];
      if HasKey(e, "left") { ValidateWindowOpsPasses(e.fields["left"], metricCode, path + ".left"); }
      if HasKey(e, "right") { ValidateWindowOpsPasses(e.fields["right"], metricCode, path + ".right"); }
      if HasKey(e, "series") && TypeofObject(e.fields["series"]) {
        ValidateWindowOpsPasses(e.fields["series"], metricCode, path + ".series");
      }
      if HasKey(e, "operands") && e.fields["operands"].JArr? {
        ValidateOperandsFromPasses(e, 0, metricCode, path);
      }
      assert Nodes(e) == [e] + l + r + s + o;
      AllOkConcat([e] + l + r + s, o);
      AllOkConcat([e] + l + r, s);
      AllOkConcat([e] + l, r);
      AllOkConcat([e], l);
    }
  }

  lemma {:induction false} ValidateOperandsFromPasses(e: Json, i: nat, metricCode: string, path: string)
    requires HasKey(e, "operands") && e.fields["operands"].JArr?
    requires i <= |e.fields["operands"].items|
    ensures ValidateOperandsFrom(e, i, metricCode, path).Pass? <==> AllOk(NodesFrom(e, i))
    decreases e, 0, |e.fields["operands"].items| - i
  {
    var operands := e.fields["operands"].items;
    if i < |operands| {
      ValidateWindowOpsPasses(operands[i], metricCode, OperandsPath(path, i));
      ValidateOperandsFromPasses(e, i + 1, metricCode, path);
      AllOkConcat(Nodes(operands[i]), NodesFrom(e, i + 1));
    }
  }

  // ---------------------------------------------------------------------
  // Where the three classifications disagree

  /** A window of 0.5 satisfies the validator (a number above 0) but fails
      the emission check (below 1). */
  lemma HalfWindowPassesValidatorOnly()
    ensures var e := JObj(map["op" := JStr("sma"), "series" := JObj(map["seriesCode" := JStr("A")]),
                              "window" := JNum(0.5)]);
      && ExpressionValidator.ValidateWindowOpExpression(e) == Pass
      && ValidateWindowOps(e, "m", "expressionJson") == Fail(WindowInvalid("m", "expressionJson"))
  {
    var s := JObj(map["seriesCode" := JStr("A")]);
    var e := JObj(map["op" := JStr("sma"), "series" := s, "window" := JNum(0.5)]);
    assert !IsBlank("A") by {
      assert "A"[0] !in " ";
    }
    assert ExpressionValidator.ValidateOperand(s, "series") == Pass;
    assert ValidateWindowOps(e, "m", "expressionJson") == CheckNode(e, "m", "expressionJson");
  }

  /** A nested `op`+`series` node without `window` adds nothing to the
      extracted codes, yet the emission check rejects it. */
  lemma OpSeriesWithoutWindow()
    ensures var e := JObj(map["op" := JStr("sma"), "series" := JObj(map["seriesCode" := JStr("A")])]);
      && DependencyExtractor.SeriesCodes(e) == Ok([])
      && ValidateWindowOps(e, "m", "expressionJson") == Fail(WindowMissing("m", "expressionJson"))
  {
    var e := JObj(map["op" := JStr("sma"), "series" := JObj(map["seriesCode" := JStr("A")])]);
    assert !DependencyExtractor.IsSeriesMathExpression(e) && !DependencyExtractor.IsWindowOpExpression(e);
    assert !DependencyExtractor.IsCompositeExpression(e);
  }

  /** A `window`+`series` node without `op` is a window operation to the
      extractor, not to the emission check, which accepts any window on it. */
  lemma WindowWithoutOpIsUnchecked()
    ensures var e := JObj(map["series" := JObj(map["seriesCode" := JStr("A")]), "window" := JNum(0.0)]);
      && DependencyExtractor.SeriesCodes(e) == Ok(["A"])
      && ValidateWindowOps(e, "m", "expressionJson") == Pass
  {
    var s := JObj(map["seriesCode" := JStr("A")]);
    var e := JObj(map["series" := s, "window" := JNum(0.0)]);
    assert !DependencyExtractor.IsSeriesMathExpression(e) && DependencyExtractor.IsWindowOpExpression(e);
    assert DependencyExtractor.IsSeriesReference(s) && DependencyExtractor.ReferenceCode(s) == "A";
    assert OrderedSet.AddCode([], "A") == ["A"];
    assert e.fields["series"] == s && !HasKey(e, "op") && !HasKey(e, "left") && !HasKey(e, "right");
    assert !HasKey(s, "op") && !HasKey(s, "left") && !HasKey(s, "right") && !HasKey(s, "series");
    assert ValidateWindowOps(s, "m", "expressionJson" + ".series") == Pass;
  }

  /** A window operation nested as a composite operand is checked, though the
      extractor ignores nested composite operands. */
  lemma CompositeOperandIsChecked()
    ensures var inner := JObj(map["op" := JStr("lag"), "series" := JObj(map["seriesCode" := JStr("A")])]);
      var e := JObj(map["op" := JStr("sum"), "operands" := JArr([inner])]);
      && DependencyExtractor.SeriesCodes(e) == Ok([])
      && ValidateWindowOps(e, "m", "expressionJson") == Fail(WindowMissing("m", "expressionJson.operands[0]"))
  {
    var inner := JObj(map["op" := JStr("lag"), "series" := JObj(map["seriesCode" := JStr("A")])]);
    var e := JObj(map["op" := JStr("sum"), "operands" := JArr([inner])]);
    assert !DependencyExtractor.IsSeriesMathExpression(e) && !DependencyExtractor.IsWindowOpExpression(e);
    assert DependencyExtractor.IsCompositeExpression(e);
    assert e.fields["operands"].items == [inner];
    assert !DependencyExtractor.IsSeriesReference(inner);
    assert DependencyExtractor.FromOperand(inner, []) == Ok([]);
    assert [inner][1..] == [];
    assert DependencyExtractor.FromOperands([inner], []) == Ok([]);
    assert DependencyExtractor.FromExpression(e, []) == Ok([]);
    assert OperandsPath("expressionJson", 0) == "expressionJson.operands[0]";
    assert ValidateWindowOps(inner, "m", "expressionJson.operands[0]")
      == Fail(WindowMissing("m", "expressionJson.operands[0]"));
    assert ValidateOperandsFrom(e, 0, "m", "expressionJson") == Fail(WindowMissing("m", "expressionJson.operands[0]"));
  }
}
