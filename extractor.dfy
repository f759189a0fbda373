/** Extraction of the series codes a metric expression depends on.

    The service walks the expression with a JavaScript `Set` that it fills
    in place; a `Set` yields its elements in first-insertion order, so it is
    modelled as a duplicate-free sequence that `AddCode` extends at the end.
    The shape tests use the `in` operator, which throws a `TypeError` when
    the value examined is null or a primitive; that outcome is `Err(TypeError)`. */
module DependencyExtractor {
  import opened Wrappers
  import opened Json
  import opened Entities
  import opened OrderedSet

  datatype ExtractError = TypeError

  // ---------------------------------------------------------------------
  // Shape predicates, each called only on an object-like value

  predicate IsSeriesReference(v: Json) {
    HasKey(v, "seriesCode") && v.fields["seriesCode"].JStr?
  }

  function ReferenceCode(v: Json): string
    requires IsSeriesReference(v)
  {
    v.fields["seriesCode"].s
  }

  predicate IsSeriesMathExpression(e: Json) {
    HasKey(e, "op") && HasKey(e, "left") && HasKey(e, "right")
  }

  predicate IsWindowOpExpression(e: Json) {
    HasKey(e, "window") && HasKey(e, "series")
  }

  predicate IsCompositeExpression(e: Json) {
    HasKey(e, "operands") && e.fields["operands"].JArr?
  }

  // ---------------------------------------------------------------------
  // The traversal of the source, with its accumulator

  /** `extractSeriesFromExpression(expression, seriesCodes)`: the set after
      the call, or the TypeError it throws. */
  function FromExpression(e: Json, codes: seq<string>): Result<seq<string>, ExtractError>
    decreases e, 0
  {
    if !IsObjectLike(e) then Err(TypeError)
    else if IsSeriesMathExpression(e) then
      var afterLeft :- FromReference(e.fields["left"], codes);
      FromReference(e.fields["right"], afterLeft)
    else if IsWindowOpExpression(e) then FromReference(e.fields["series"], codes)
    else if IsCompositeExpression(e) then FromOperands(e.fields["operands"].items, codes)
    else Ok(codes)
  }

  /** `extractFromSeriesReference(refOrExpr, seriesCodes)`. */
  function FromReference(v: Json, codes: seq<string>): Result<seq<string>, ExtractError>
    decreases v, 1
  {
    if !IsObjectLike(v) then Err(TypeError)
    else if IsSeriesReference(v) then Ok(AddCode(codes, ReferenceCode(v)))
    else FromExpression(v, codes)
  }

  /** One pass of the composite loop: only direct series references count. */
  function FromOperand(operand: Json, codes: seq<string>): Result<seq<string>, ExtractError> {
    if !IsObjectLike(operand) then Err(TypeError)
    else if IsSeriesReference(operand) then Ok(AddCode(codes, ReferenceCode(operand)))
    else Ok(codes)
  }

  /** The composite loop over `operands`, taken left to right. */
  function FromOperands(operands: seq<Json>, codes: seq<string>): Result<seq<string>, ExtractError>
    decreases |operands|
  {
    if operands == [] then Ok(codes)
    else
      var afterFirst :- FromOperand(operands[0], codes);
      FromOperands(operands[1..], afterFirst)
  }

  /** `extractSeriesCodes` on an expression: `Array.from` of a fresh set. */
  function SeriesCodes(expressionJson: Json): Result<seq<string>, ExtractError> {
    FromExpression(expressionJson, [])
  }

  /** The codes `refOrExpr` contributes on its own. */
  function ReferenceCodes(v: Json): Result<seq<string>, ExtractError> {
    FromReference(v, [])
  }

  // ---------------------------------------------------------------------
  // A reference definition without accumulator: every code visited, in
  // visiting order, duplicates kept

  function VisitedInExpression(e: Json): Result<seq<string>, ExtractError>
    decreases e, 0
  {
    if !IsObjectLike(e) then Err(TypeError)
    else if IsSeriesMathExpression(e) then
      var l :- VisitedInReference(e.fields["left"]);
      var r :- VisitedInReference(e.fields["right"]);
      Ok(l + r)
    else if IsWindowOpExpression(e) then VisitedInReference(e.fields["series"])
    else if IsCompositeExpression(e) then VisitedInOperands(e.fields["operands"].items)
    else Ok([])
  }

  function VisitedInReference(v: Json): Result<seq<string>, ExtractError>
    decreases v, 1
  {
    if !IsObjectLike(v) then Err(TypeError)
    else if IsSeriesReference(v) then Ok([ReferenceCode(v)])
    else VisitedInExpression(v)
  }

  function VisitedInOperands(operands: seq<Json>): Result<seq<string>, ExtractError>
    decreases |operands|
  {
    if operands == [] then Ok([])
    else if !IsObjectLike(operands[0]) then Err(TypeError)
    else
      var rest :- VisitedInOperands(operands[1..]);
      if IsSeriesReference(operands[0]) then Ok([ReferenceCode(operands[0])] + rest)
      else Ok(rest)
  }

  /** Adding what was visited to `codes`, or the error. */
  function Extend(visited: Result<seq<string>, ExtractError>, codes: seq<string>): Result<seq<string>, ExtractError> {
    match visited
    case Ok(xs) => Ok(AddAll(codes, xs))
    case Err(x) => Err(x)
  }

  /** A string `seriesCode` property on some object at any depth of `v`,
      reached through any property or array element. */
  predicate OccursIn(v: Json, c: string) {
    match v
    case JObj(m) =>
      ("seriesCode" in m && m["seriesCode"] == JStr(c)) || exists k :: k in m && OccursIn(m[k], c)
    case JArr(items) => exists i :: 0 <= i < |items| && OccursIn(items[i], c)
    case _ => false
  }

  // ---------------------------------------------------------------------
  // The executable form: the set is threaded through the calls

  /** `extractSeriesCodes(metric)`. */
  method ExtractSeriesCodes(metric: Metric) returns (r: Result<seq<string>, ExtractError>)
    ensures r == SeriesCodes(metric.expressionJson)
  {
    r := ExtractSeriesFromExpression(metric.expressionJson, []);
  }

  method ExtractSeriesFromExpression(expression: Json, seriesCodes: seq<string>)
    returns (r: Result<seq<string>, ExtractError>)
    ensures r == FromExpression(expression, seriesCodes)
    decreases expression, 0
  {
    if !IsObjectLike(expression) {
      return Err(TypeError);
    }
    if IsSeriesMathExpression(expression) {
      var afterLeft := ExtractFromSeriesReference(expression.fields["left"], seriesCodes);
      if afterLeft.Err? {
        return afterLeft;
      }
      r := ExtractFromSeriesReference(expression.fields["right"], afterLeft.value);
    } else if IsWindowOpExpression(expression) {
      r := ExtractFromSeriesReference(expression.fields["series"], seriesCodes);
    } else if IsCompositeExpression(expression) {
      var operands := expression.fields["operands"].items;
      var codes := seriesCodes;
      var i := 0;
      assert operands[0..] == operands;
      while i < |operands|
        invariant 0 <= i <= |operands|
        invariant FromOperands(operands, seriesCodes) == FromOperands(operands[i..], codes)
      {
        var operand := operands[i];
        assert operands[i..][1..] == operands[i + 1..];
        if !IsObjectLike(operand) {
          return Err(TypeError);
        }
        if IsSeriesReference(operand) {
          codes := AddCode(codes, ReferenceCode(operand));
        }
        i := i + 1;
      }
      r := Ok(codes);
    } else {
      r := Ok(seriesCodes);
    }
  }

  method ExtractFromSeriesReference(refOrExpr: Json, seriesCodes: seq<string>)
    returns (r: Result<seq<string>, ExtractError>)
    ensures r == FromReference(refOrExpr, seriesCodes)
    decreases refOrExpr, 1
  {
    if !IsObjectLike(refOrExpr) {
      return Err(TypeError);
    }
    if IsSeriesReference(refOrExpr) {
      r := Ok(AddCode(seriesCodes, ReferenceCode(refOrExpr)));
    } else {
      r := ExtractSeriesFromExpression(refOrExpr, seriesCodes);
    }
  }

  // ---------------------------------------------------------------------
  // The traversal against the reference definition

  /** The accumulator only ever receives the visited codes, in order. */
  lemma {:induction false} FromExpressionExtends(e: Json, codes: seq<string>)
    ensures FromExpression(e, codes) == Extend(VisitedInExpression(e), codes)
    decreases e, 0
  {
    if !IsObjectLike(e) {
    } else if IsSeriesMathExpression(e) {
      var left, right := e.fields["left"], e.fields["right"];
      FromReferenceExtends(left, codes);
      var vl := VisitedInReference(left);
      if vl.Ok? {
        FromReferenceExtends(right, AddAll(codes, vl.value));
        var vr := VisitedInReference(right);
        if vr.Ok? {
          AddAllConcat(codes, vl.value, vr.value);
        }
      }
    } else if IsWindowOpExpression(e) {
      FromReferenceExtends(e.fields["series"], codes);
    } else if IsCompositeExpression(e) {
      FromOperandsExtends(e.fields["operands"].items, codes);
    }
  }

  lemma {:induction false} FromReferenceExtends(v: Json, codes: seq<string>)
    ensures FromReference(v, codes) == Extend(VisitedInReference(v), codes)
    decreases v, 1
  {
    if IsObjectLike(v) && IsSeriesReference(v) {
      var c := ReferenceCode(v);
      assert [c][0] == c && [c][1..] == [];
      assert AddAll(codes, [c]) == AddAll(AddCode(codes, c), []);
    } else if IsObjectLike(v) {
      FromExpressionExtends(v, codes);
    }
  }

  lemma {:induction false} FromOperandsExtends(operands: seq<Json>, codes: seq<string>)
    ensures FromOperands(operands, codes) == Extend(VisitedInOperands(operands), codes)
    decreases |operands|
  {
    if operands != [] && IsObjectLike(operands[0]) {
      var first := operands[0];
      if IsSeriesReference(first) {
        var c := ReferenceCode(first);
        FromOperandsExtends(operands[1..], AddCode(codes, c));
        var rest := VisitedInOperands(operands[1..]);
        if rest.Ok? {
          assert ([c] + rest.value)[1..] == rest.value;
        }
      } else {
        FromOperandsExtends(operands[1..], codes);
      }
    }
  }

  /** Every visited code is a string `seriesCode` of the tree. */
  lemma {:induction false} VisitedInExpressionOccurs(e: Json)
    ensures VisitedInExpression(e).Ok? ==> forall c :: c in VisitedInExpression(e).value ==> OccursIn(e, c)
    decreases e, 0
  {
    if IsObjectLike(e) && VisitedInExpression(e).Ok? {
      if IsSeriesMathExpression(e) {
        VisitedInReferenceOccurs(e.fields["left"]);
        VisitedInReferenceOccurs(e.fields["right"]);
        forall c | c in VisitedInExpression(e).value ensures OccursIn(e, c) {
          if c in VisitedInReference(e.fields["left"]).value {
            assert OccursIn(e.fields["left"], c);
          } else {
            assert OccursIn(e.fields["right"], c);
          }
        }
      } else if IsWindowOpExpression(e) {
        VisitedInReferenceOccurs(e.fields["series"]);
        forall c | c in VisitedInExpression(e).value ensures OccursIn(e, c) {
          assert OccursIn(e.fields["series"], c);
        }
      } else if IsCompositeExpression(e) {
        var operands := e.fields["operands"];
        VisitedInOperandsOccur(operands.items);
        forall c | c in VisitedInExpression(e).value ensures OccursIn(e, c) {
          var i :| 0 <= i < |operands.items| && OccursIn(operands.items[i], c);
          assert OccursIn(operands, c);
        }
      }
    }
  }

  lemma {:induction false} VisitedInReferenceOccurs(v: Json)
    ensures VisitedInReference(v).Ok? ==> forall c :: c in VisitedInReference(v).value ==> OccursIn(v, c)
    decreases v, 1
  {
    if IsObjectLike(v) && !IsSeriesReference(v) {
      VisitedInExpressionOccurs(v);
    }
  }

  lemma {:induction false} VisitedInOperandsOccur(operands: seq<Json>)
    ensures VisitedInOperands(operands).Ok? ==>
      forall c :: c in VisitedInOperands(operands).value ==>
        exists i :: 0 <= i < |operands| && OccursIn(operands[i], c)
    decreases |operands|
  {
    VisitedInOperandsDirect(operands);
    if VisitedInOperands(operands).Ok? {
      forall c | c in VisitedInOperands(operands).value
        ensures exists i :: 0 <= i < |operands| && OccursIn(operands[i], c)
      {
        var i :| 0 <= i < |operands| && IsSeriesReference(operands[i]) && ReferenceCode(operands[i]) == c;
        assert OccursIn(operands[i], c);
      }
    }
  }

  /** The composite loop succeeds exactly when every operand is an object or
      array, and then visits the direct series references and nothing else. */
  lemma {:induction false} VisitedInOperandsDirect(operands: seq<Json>)
    ensures VisitedInOperands(operands).Ok? <==> forall i :: 0 <= i < |operands| ==> IsObjectLike(operands[i])
    ensures VisitedInOperands(operands).Ok? ==> forall c :: c in VisitedInOperands(operands).value <==>
      exists i :: 0 <= i < |operands| && IsSeriesReference(operands[i]) && ReferenceCode(operands[i]) == c
    decreases |operands|
  {
    if operands != [] {
      var rest := operands[1..];
      VisitedInOperandsDirect(rest);
      assert forall i :: 0 < i < |operands| ==> operands[i] == rest[i - 1];
      if VisitedInOperands(operands).Ok? {
        forall c | c in VisitedInOperands(operands).value
          ensures exists i :: 0 <= i < |operands| && IsSeriesReference(operands[i]) && ReferenceCode(operands[i]) == c
        {
          if c in VisitedInOperands(rest).value {
            var i :| 0 <= i < |rest| && IsSeriesReference(rest[i]) && ReferenceCode(rest[i]) == c;
            assert operands[i + 1] == rest[i];
          }
        }
        forall c | exists i :: 0 <= i < |operands| && IsSeriesReference(operands[i]) && ReferenceCode(operands[i]) == c
          ensures c in VisitedInOperands(operands).value
        {
          var i :| 0 <= i < |operands| && IsSeriesReference(operands[i]) && ReferenceCode(operands[i]) == c;
          if i > 0 {
            assert rest[i - 1] == operands[i];
          }
        }
      } else if IsObjectLike(operands[0]) {
        var j :| 0 <= j < |rest| && !IsObjectLike(rest[j]);
        assert operands[j + 1] == rest[j];
      }
    }
  }

  // ---------------------------------------------------------------------
  // Properties of extractSeriesCodes

  /** The extracted codes are the distinct visited codes, in the order of
      their first visit; the extraction throws exactly when the visit does. */
  lemma SeriesCodesFirstOccurrence(e: Json)
    ensures SeriesCodes(e).Ok? <==> VisitedInExpression(e).Ok?
    ensures SeriesCodes(e).Ok? ==> SeriesCodes(e).value == AddAll([], VisitedInExpression(e).value)
  {
    FromExpressionExtends(e, []);
  }

  /** No duplicates, and every code is a string `seriesCode` in the tree. */
  lemma SeriesCodesAreDistinctOccurrences(e: Json)
    ensures SeriesCodes(e).Ok? ==> NoDuplicates(SeriesCodes(e).value)
    ensures SeriesCodes(e).Ok? ==> forall c :: c in SeriesCodes(e).value ==> OccursIn(e, c)
  {
    FromExpressionExtends(e, []);
    var v := VisitedInExpression(e);
    if v.Ok? {
      AddAllNoDuplicates([], v.value);
      AddAllMembers([], v.value);
      VisitedInExpressionOccurs(e);
    }
  }

  /** A series_math node lists the codes of `left`, then those of `right`
      that `left` does not already have; a node that also has `window` and
      `series` is still treated as series_math. */
  lemma SeriesMathCodes(e: Json)
    requires IsObjectLike(e) && IsSeriesMathExpression(e)
    ensures var l, r := ReferenceCodes(e.fields["left"]), ReferenceCodes(e.fields["right"]);
      SeriesCodes(e) ==
        if l.Err? || r.Err? then Err(TypeError)
        else Ok(l.value + Without(r.value, Elements(l.value)))
  {
    var left, right := e.fields["left"], e.fields["right"];
    FromReferenceExtends(right, []);
    var l := ReferenceCodes(left);
    assert SeriesCodes(e) == FromExpression(e, []);
    assert l.Err? ==> FromExpression(e, []) == Err(l.error);
    assert l.Ok? ==> FromExpression(e, []) == FromReference(right, l.value);
    assert l.Err? ==> l.error == TypeError;
    if l.Ok? {
      FromReferenceExtends(right, l.value);
      var vr := VisitedInReference(right);
      if vr.Ok? {
        AddAllSplit(l.value, vr.value);
        assert ReferenceCodes(right) == Ok(AddAll([], vr.value));
        assert SeriesCodes(e) == Ok(AddAll(l.value, vr.value));
      } else {
        assert ReferenceCodes(right).Err?;
        assert vr.error == TypeError;
      }
    }
  }

  /** A node with `window` and `series` (with or without `op`) and no
      series_math shape depends on exactly what `series` depends on. */
  lemma WindowOpCodes(e: Json)
    requires IsObjectLike(e) && !IsSeriesMathExpression(e) && IsWindowOpExpression(e)
    ensures SeriesCodes(e) == ReferenceCodes(e.fields["series"])
  {
  }

  /** A composite node depends on its direct series-reference operands only;
      any operand that is null or a primitive makes the extraction throw. */
  lemma CompositeCodes(e: Json)
    requires IsObjectLike(e) && !IsSeriesMathExpression(e) && !IsWindowOpExpression(e)
    requires IsCompositeExpression(e)
    ensures var operands := e.fields["operands"].items;
      SeriesCodes(e).Ok? <==> forall i :: 0 <= i < |operands| ==> IsObjectLike(operands[i])
    ensures var operands := e.fields["operands"].items;
      SeriesCodes(e).Ok? ==>
        forall c :: c in SeriesCodes(e).value <==>
          exists i :: 0 <= i < |operands| && IsSeriesReference(operands[i]) && ReferenceCode(operands[i]) == c
  {
    var operands := e.fields["operands"].items;
    FromOperandsExtends(operands, []);
    VisitedInOperandsDirect(operands);
    var v := VisitedInOperands(operands);
    if v.Ok? {
      AddAllMembers([], v.value);
    }
  }

  /** An object with none of the three shapes depends on nothing, and a
      value that is not an object or array makes the extraction throw. */
  lemma UnrecognisedExpressionCodes(e: Json)
    ensures !IsObjectLike(e) ==> SeriesCodes(e) == Err(TypeError)
    ensures (IsObjectLike(e) && !IsSeriesMathExpression(e) && !IsWindowOpExpression(e)
      && !IsCompositeExpression(e)) ==> SeriesCodes(e) == Ok([])
  {
  }

  /** ratio(multiply(series1, series2), sma(series3, 7)) depends on series1,
      series2 and series3, in that order. */
  lemma NestedExpressionExample()
    ensures SeriesCodes(JObj(map[
      "op" := JStr("ratio"),
      "left" := JObj(map["op" := JStr("multiply"),
                         "left" := JObj(map["seriesCode" := JStr("series1")]),
                         "right" := JObj(map["seriesCode" := JStr("series2")])]),
      "right" := JObj(map["op" := JStr("sma"),
                          "series" := JObj(map["seriesCode" := JStr("series3")]),
                          "window" := JNum(7.0)])]))
      == Ok(["series1", "series2", "series3"])
  {
    var s1, s2, s3 := JObj(map["seriesCode" := JStr("series1")]),
      JObj(map["seriesCode" := JStr("series2")]), JObj(map["seriesCode" := JStr("series3")]);
    var mul := JObj(map["op" := JStr("multiply"), "left" := s1, "right" := s2]);
    var sma := JObj(map["op" := JStr("sma"), "series" := s3, "window" := JNum(7.0)]);
    var e := JObj(map["op" := JStr("ratio"), "left" := mul, "right" := sma]);
    assert IsSeriesMathExpression(mul) && IsSeriesMathExpression(e);
    assert !IsSeriesMathExpression(sma) && IsWindowOpExpression(sma);
    assert IsSeriesReference(s1) && ReferenceCode(s1) == "series1";
    assert IsSeriesReference(s2) && ReferenceCode(s2) == "series2";
    assert IsSeriesReference(s3) && ReferenceCode(s3) == "series3";
    assert AddCode([], "series1") == ["series1"];
    assert AddCode(["series1"], "series2") == ["series1", "series2"];
    assert AddCode(["series1", "series2"], "series3") == ["series1", "series2", "series3"];
    assert FromReference(s1, []) == Ok(["series1"]);
    assert FromReference(s2, ["series1"]) == Ok(["series1", "series2"]);
    assert FromExpression(mul, []) == Ok(["series1", "series2"]);
    assert FromReference(mul, []) == Ok(["series1", "series2"]);
    assert FromReference(s3, ["series1", "series2"]) == Ok(["series1", "series2", "series3"]);
    assert FromExpression(sma, ["series1", "series2"]) == Ok(["series1", "series2", "series3"]);
  }
}
