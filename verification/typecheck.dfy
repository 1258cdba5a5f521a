/**
 * The value-type validator `checkType`: a total map from a value-type tag of
 * the capability catalog and a candidate value to pass/fail.
 */
module TypeCheck {
  import opened JsValues

  const StringTags: set<string> := {"string", "langString", "anyURI"}
  const FloatTags: set<string> := {"decimal", "double", "float"}
  const IntegerTags: set<string> :=
    {"int", "integer", "long", "short", "byte", "unsignedLong", "unsignedShort", "unsignedByte"}
  const SignTags: set<string> :=
    {"nonNegativeInteger", "positiveInteger", "time", "nonPositiveInteger", "negativeInteger"}
  const DateTags: set<string> := {"date", "dateTime", "dateTimeStamp"}
  /** Every tag with a case of its own; all others fall through to "valid". */
  const KnownTags: set<string> :=
    StringTags + FloatTags + IntegerTags + SignTags + DateTags + {"boolean", "complexType"}

  /** The number has no fractional part: its remainder modulo 1 is zero. */
  predicate IsWhole(r: real)
  {
    r == r.Floor as real
  }

  /**
   * The validator. `NaN` fails every integer tag, because `NaN % 1` is `NaN`
   * and every comparison with it is false. For the date tags the code also
   * asks that `new Date(v)` be an object, which it always is, so only the
   * number test remains.
   */
  function CheckType(t: string, v: JsValue): bool
  {
    if t in StringTags then TypeOf(v) == "string"
    else if t in FloatTags then TypeOf(v) == "number"
    else if t in IntegerTags then v.Num? && IsWhole(v.n)
    else if t == "nonNegativeInteger" then v.Num? && v.n >= 0.0 && IsWhole(v.n)
    else if t == "positiveInteger" || t == "time" then v.Num? && v.n > 0.0 && IsWhole(v.n)
    else if t == "nonPositiveInteger" then v.Num? && v.n <= 0.0 && IsWhole(v.n)
    else if t == "negativeInteger" then v.Num? && v.n < 0.0 && IsWhole(v.n)
    else if t in DateTags then TypeOf(v) == "number"
    else if t == "boolean" then TypeOf(v) == "boolean"
    else if t == "complexType" then TypeOf(v) == "object"
    else true
  }

  /** The JavaScript number for a mathematical integer. */
  function FromInt(k: int): JsValue
  {
    Num(k as real)
  }

  /** The string-like tags accept exactly strings, the empty one included. */
  lemma StringTagsAcceptExactlyStrings(t: string, v: JsValue)
    requires t in StringTags
    ensures CheckType(t, v) <==> v.Str?
    ensures CheckType(t, Str(""))
  {
  }

  /** The floating-point tags accept exactly the numbers, fractions and NaN included, and nothing else. */
  lemma FloatTagsAcceptExactlyNumbers(t: string, v: JsValue)
    requires t in FloatTags
    ensures CheckType(t, v) <==> (v.Num? || v.NaN?)
    ensures CheckType(t, Num(0.5)) && CheckType(t, NaN)
  {
  }

  /** The integer-family tags accept exactly the numbers that are integers. */
  lemma IntegerTagsAcceptExactlyIntegers(t: string, v: JsValue)
    requires t in IntegerTags
    ensures CheckType(t, v) <==> exists k :: v == FromInt(k)
  {
    if CheckType(t, v) {
      assert v == FromInt(v.n.Floor);
    }
  }

  /** Each sign tag accepts exactly the integers on its side of zero. */
  lemma SignTagsAcceptExactlyBoundedIntegers(v: JsValue)
    ensures CheckType("nonNegativeInteger", v) <==> exists k :: v == FromInt(k) && k >= 0
    ensures CheckType("positiveInteger", v) <==> exists k :: v == FromInt(k) && k > 0
    ensures CheckType("time", v) <==> exists k :: v == FromInt(k) && k > 0
    ensures CheckType("nonPositiveInteger", v) <==> exists k :: v == FromInt(k) && k <= 0
    ensures CheckType("negativeInteger", v) <==> exists k :: v == FromInt(k) && k < 0
  {
    if v.Num? && IsWhole(v.n) {
      assert v == FromInt(v.n.Floor);
    }
  }

  /** A sign tag only narrows the integer family: whatever it accepts, `integer` accepts. */
  lemma SignTagsNarrowIntegerTags(t: string, u: string, v: JsValue)
    requires t in SignTags && u in IntegerTags
    ensures CheckType(t, v) ==> CheckType(u, v)
  {
  }

  /** Zero sits on the boundary: both non-strict sign tags accept it, the strict ones and `time` reject it. */
  lemma ZeroBoundary()
    ensures CheckType("nonNegativeInteger", FromInt(0))
    ensures CheckType("nonPositiveInteger", FromInt(0))
    ensures !CheckType("positiveInteger", FromInt(0))
    ensures !CheckType("time", FromInt(0))
    ensures !CheckType("negativeInteger", FromInt(0))
    ensures forall t :: t in IntegerTags ==> CheckType(t, FromInt(0))
  {
  }

  /** Integer tags reject every number with a fractional part, and NaN. */
  lemma FractionsAndNaNAreNotIntegers(t: string, r: real)
    requires t in IntegerTags || t in SignTags
    requires !IsWhole(r)
    ensures !CheckType(t, Num(r))
    ensures !CheckType(t, NaN)
  {
  }

  /** The date tags ask no more than the floating-point tags: the value is a number (NaN included). */
  lemma DateTagsOnlyAskForANumber(t: string, v: JsValue)
    requires t in DateTags
    ensures CheckType(t, v) <==> CheckType("double", v)
    ensures CheckType(t, v) <==> (v.Num? || v.NaN?)
  {
  }

  /** `complexType` accepts exactly the values whose `typeof` is "object", `null` among them. */
  lemma ComplexTypeAcceptsObjectsAndNull(v: JsValue)
    ensures CheckType("complexType", v) <==> (v.Obj? || v.Arr? || v.Null?)
    ensures CheckType("complexType", Null)
  {
  }

  /** The boolean tag accepts exactly booleans, so an absent value fails it. */
  lemma BooleanTagAcceptsExactlyBooleans(v: JsValue)
    ensures CheckType("boolean", v) <==> v.Bool?
    ensures !CheckType("boolean", Undefined)
  {
  }

  /** The any-type tags, and every tag without a case, accept every value. */
  lemma UnknownTagsAcceptEverything(t: string, v: JsValue)
    requires t !in KnownTags || t in {"anyType", "anySimpleType", "anyAtomicType"}
    ensures CheckType(t, v)
  {
  }
}
