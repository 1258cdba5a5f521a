/**
 * `evaluate`: checks the values offered for a catalog submodel, element by
 * element, for presence and type. The `some` callback in `index.js` returns
 * `null` on every path, so the walk never stops early: each failing element
 * overwrites the reason left by the previous one and the LAST failure in
 * schema order is what the caller sees.
 */
module Evaluation {
  import opened JsValues
  import opened TypeCheck
  import opened Catalog

  /** The value set: semantic id to offered value. */
  type ValueSet = map<string, JsValue>

  function MissingReason(e: Element): string
  {
    "Value for " + e.idShort + " (" + e.semanticId + ") is missing"
  }

  function InvalidReason(e: Element): string
  {
    "Type for " + e.idShort + " (" + e.semanticId + ") is invalid"
  }

  /** The presence check: booleans are exempt, every other element needs a truthy value. */
  predicate Present(e: Element, values: ValueSet)
  {
    e.valueType == "boolean" || Truthy(Get(values, e.semanticId))
  }

  predicate WellTyped(e: Element, values: ValueSet)
  {
    CheckType(e.valueType, Get(values, e.semanticId))
  }

  predicate Passes(e: Element, values: ValueSet)
  {
    Present(e, values) && WellTyped(e, values)
  }

  predicate AllPass(elems: seq<Element>, values: ValueSet)
  {
    forall i :: 0 <= i < |elems| ==> Passes(elems[i], values)
  }

  /** Element `i` fails and every element after it passes. */
  predicate IsLastFailure(elems: seq<Element>, values: ValueSet, i: int)
  {
    && 0 <= i < |elems|
    && !Passes(elems[i], values)
    && forall j :: i < j < |elems| ==> Passes(elems[j], values)
  }

  /** Element `i` fails and every element before it passes. */
  predicate IsFirstFailure(elems: seq<Element>, values: ValueSet, i: int)
  {
    && 0 <= i < |elems|
    && !Passes(elems[i], values)
    && forall j :: 0 <= j < i ==> Passes(elems[j], values)
  }

  /**
   * What one run of the `some` callback reports for an element: the missing
   * reason when the presence check fails, otherwise the invalid reason when
   * the type check fails, otherwise nothing.
   */
  function Verdict(e: Element, values: ValueSet): (r: Option<string>)
    ensures r.None? <==> Passes(e, values)
    ensures !Present(e, values) ==> r == Some(MissingReason(e))
    ensures Present(e, values) && !WellTyped(e, values) ==> r == Some(InvalidReason(e))
    ensures r.Some? ==> r.value != "success"
  {
    if !Present(e, values) then
      assert MissingReason(e)[0] == 'V';
      Some(MissingReason(e))
    else if !WellTyped(e, values) then
      assert InvalidReason(e)[0] == 'T';
      Some(InvalidReason(e))
    else None
  }

  /** The `some` walk: `status` is overwritten by every element that fails. */
  function Walk(elems: seq<Element>, values: ValueSet, status: Option<string>): Option<string>
    decreases |elems|
  {
    if elems == [] then status
    else
      var v := Verdict(elems[0], values);
      Walk(elems[1..], values, if v.Some? then v else status)
  }

  lemma AllPassOfTail(elems: seq<Element>, values: ValueSet)
    requires |elems| > 0
    ensures AllPass(elems, values) <==> Passes(elems[0], values) && AllPass(elems[1..], values)
  {
    if Passes(elems[0], values) && AllPass(elems[1..], values) {
      forall i | 0 <= i < |elems| ensures Passes(elems[i], values) {
        if i > 0 { assert elems[i] == elems[1..][i - 1]; }
      }
    }
  }

  /** When no element fails, the walk ends with the status it started with. */
  lemma {:induction false} WalkKeepsStatusWhenAllPass(elems: seq<Element>, values: ValueSet, status: Option<string>)
    requires AllPass(elems, values)
    ensures Walk(elems, values, status) == status
  {
    if elems != [] {
      AllPassOfTail(elems, values);
      WalkKeepsStatusWhenAllPass(elems[1..], values, status);
    }
  }

  /** The walk ends with the reason of the last failing element, whatever the status it started with. */
  lemma {:induction false} WalkReportsLastFailure(elems: seq<Element>, values: ValueSet, status: Option<string>, i: int)
    requires IsLastFailure(elems, values, i)
    ensures Walk(elems, values, status) == Verdict(elems[i], values)
  {
    var v := Verdict(elems[0], values);
    var next := if v.Some? then v else status;
    if i == 0 {
      forall j | 0 <= j < |elems| - 1 ensures Passes(elems[1..][j], values) {
        assert elems[1..][j] == elems[j + 1];
      }
      WalkKeepsStatusWhenAllPass(elems[1..], values, next);
    } else {
      assert IsLastFailure(elems[1..], values, i - 1);
      WalkReportsLastFailure(elems[1..], values, next, i - 1);
    }
  }

  /** When some element fails, one of them is the last. */
  lemma FailureHasLast(elems: seq<Element>, values: ValueSet)
    ensures !AllPass(elems, values) ==> exists i :: IsLastFailure(elems, values, i)
  {
    if !AllPass(elems, values) {
      var f :| 0 <= f < |elems| && !Passes(elems[f], values);
      var i := |elems| - 1;
      while Passes(elems[i], values)
        invariant f <= i < |elems|
        invariant forall j :: i < j < |elems| ==> Passes(elems[j], values)
        decreases i
      {
        i := i - 1;
      }
      assert IsLastFailure(elems, values, i);
    }
  }

  /** Started without a status, the walk ends with a reason (never "success") exactly when some element fails. */
  lemma WalkFindsAFailureIffSomeFails(elems: seq<Element>, values: ValueSet)
    ensures Walk(elems, values, None).None? <==> AllPass(elems, values)
    ensures Walk(elems, values, None).Some? ==> Walk(elems, values, None).value != "success"
  {
    if AllPass(elems, values) {
      WalkKeepsStatusWhenAllPass(elems, values, None);
    } else {
      FailureHasLast(elems, values);
      var i :| IsLastFailure(elems, values, i);
      WalkReportsLastFailure(elems, values, None, i);
    }
  }

  /**
   * `evaluate(irdi, values)`: "success" exactly when every element of the
   * price-free submodel passes both checks, and otherwise the reason for the
   * last failing element.
   */
  function Evaluate(catalog: CapabilityCatalog, irdi: string, values: ValueSet): (r: string)
    requires irdi in catalog
    ensures r == "success" <==> AllPass(Submodel(catalog, irdi), values)
  {
    var elems := Submodel(catalog, irdi);
    WalkFindsAFailureIffSomeFails(elems, values);
    match Walk(elems, values, None)
    case Some(reason) => reason
    case None => "success"
  }

  /** A failed evaluation names the last failing element of the submodel view. */
  lemma EvaluateReportsLastFailure(catalog: CapabilityCatalog, irdi: string, values: ValueSet, i: int)
    requires irdi in catalog
    requires IsLastFailure(Submodel(catalog, irdi), values, i)
    ensures Some(Evaluate(catalog, irdi, values)) == Verdict(Submodel(catalog, irdi)[i], values)
  {
    WalkReportsLastFailure(Submodel(catalog, irdi), values, None, i);
  }

  /** The walk with the early exit the `some` call was evidently meant to have. */
  function FirstFailure(elems: seq<Element>, values: ValueSet): (r: Option<string>)
    ensures r.None? <==> AllPass(elems, values)
    ensures r.Some? ==> exists i :: IsFirstFailure(elems, values, i) && r == Verdict(elems[i], values)
  {
    if elems == [] then None
    else
      AllPassOfTail(elems, values);
      var v := Verdict(elems[0], values);
      if v.Some? then
        assert IsFirstFailure(elems, values, 0);
        v
      else
        var r := FirstFailure(elems[1..], values);
        if r.Some? then
          var i :| IsFirstFailure(elems[1..], values, i) && r == Verdict(elems[1..][i], values);
          assert IsFirstFailure(elems, values, i + 1);
          r
        else r
  }

  /** Corrected `evaluate`: stops at, and reports, the first failing element in schema order. */
  function EvaluateFailFast(catalog: CapabilityCatalog, irdi: string, values: ValueSet): (r: string)
    requires irdi in catalog
    ensures r == "success" <==> AllPass(Submodel(catalog, irdi), values)
    ensures r != "success" ==>
      exists i :: IsFirstFailure(Submodel(catalog, irdi), values, i) && Some(r) == Verdict(Submodel(catalog, irdi)[i], values)
  {
    match FirstFailure(Submodel(catalog, irdi), values)
    case Some(reason) => reason
    case None => "success"
  }

  /** The two walks accept the same value sets, so whichever one `generate` consults it binds the same payloads. */
  lemma FailFastAgreesOnSuccess(catalog: CapabilityCatalog, irdi: string, values: ValueSet)
    requires irdi in catalog
    ensures EvaluateFailFast(catalog, irdi, values) == "success" <==> Evaluate(catalog, irdi, values) == "success"
  {
  }

  /** Two failing elements: as written the second one's reason is reported, fail-fast reports the first. */
  lemma LastFailureWinsAsWritten()
    ensures var a := Element("power", "s1", "integer", Undefined);
            var b := Element("speed", "s2", "string", Undefined);
            var catalog := map["X" := [a, b]];
            && Evaluate(catalog, "X", map[]) == MissingReason(b)
            && EvaluateFailFast(catalog, "X", map[]) == MissingReason(a)
            && MissingReason(a) != MissingReason(b)
  {
    var a := Element("power", "s1", "integer", Undefined);
    var b := Element("speed", "s2", "string", Undefined);
    var catalog := map["X" := [a, b]];
    var elems := Submodel(catalog, "X");
    assert elems == [a, b];
    assert IsLastFailure(elems, map[], 1);
    EvaluateReportsLastFailure(catalog, "X", map[], 1);
    assert IsFirstFailure(elems, map[], 0);
    assert MissingReason(a)[10] != MissingReason(b)[10];
  }

  /** A falsy value of a non-boolean element is reported missing, even a 0 that the type would accept. */
  lemma FalsyValueIsMissing(e: Element, values: ValueSet)
    requires e.valueType != "boolean" && !Truthy(Get(values, e.semanticId))
    ensures Verdict(e, values) == Some(MissingReason(e))
  {
  }

  /** Zero offered for a `nonNegativeInteger` passes the type check but is reported missing. */
  lemma ZeroNonNegativeIsMissing(e: Element, values: ValueSet)
    requires e.valueType == "nonNegativeInteger" && Get(values, e.semanticId) == Num(0.0)
    ensures WellTyped(e, values)
    ensures Verdict(e, values) == Some(MissingReason(e))
  {
  }

  /** A boolean element without a value skips the presence check and is reported as mistyped. */
  lemma MissingBooleanIsInvalid(e: Element, values: ValueSet)
    requires e.valueType == "boolean" && e.semanticId !in values
    ensures Verdict(e, values) == Some(InvalidReason(e))
  {
  }

  /** `false` is a legal boolean value although it is falsy. */
  lemma FalseBooleanPasses(e: Element, values: ValueSet)
    requires e.valueType == "boolean" && Get(values, e.semanticId) == Bool(false)
    ensures Passes(e, values)
  {
  }

  /** A one-element integer schema: 42 succeeds, "42" is mistyped, no value is missing. */
  lemma IntegerScenario()
    ensures var power := Element("power", "s1", "integer", Undefined);
            var catalog := map["X" := [power]];
            && Evaluate(catalog, "X", map["s1" := Num(42.0)]) == "success"
            && Evaluate(catalog, "X", map["s1" := Str("42")]) == InvalidReason(power)
            && Evaluate(catalog, "X", map[]) == MissingReason(power)
  {
    var power := Element("power", "s1", "integer", Undefined);
    var catalog := map["X" := [power]];
    assert Submodel(catalog, "X") == [power];
    EvaluateReportsLastFailure(catalog, "X", map["s1" := Str("42")], 0);
    EvaluateReportsLastFailure(catalog, "X", map[], 0);
  }
}
