/**
 * The eCl@ss capability catalog and its price-free view (`submodel`).
 * A catalog maps an IRDI to the ordered element list of its submodel.
 */
module Catalog {
  import opened JsValues

  /** One typed slot of a capability submodel; `value` is `Undefined` when the entry carries none. */
  datatype Element = Element(idShort: string, semanticId: string, valueType: string, value: JsValue)

  type CapabilityCatalog = map<string, seq<Element>>

  /** The element that carries the price, recognised by its short name. */
  predicate IsPrice(e: Element)
  {
    e.idShort == "preis" || e.idShort == "price"
  }

  predicate PriceFree(s: seq<Element>)
  {
    forall i :: 0 <= i < |s| ==> !IsPrice(s[i])
  }

  predicate HasPrice(s: seq<Element>)
  {
    exists i :: 0 <= i < |s| && IsPrice(s[i])
  }

  /** The list with every price element dropped and the other elements kept in order. */
  function WithoutPrice(s: seq<Element>): (r: seq<Element>)
    ensures PriceFree(r)
    ensures forall e :: e in r <==> e in s && !IsPrice(e)
    ensures |r| <= |s|
    ensures |r| == |s| <==> PriceFree(s)
  {
    if s == [] then []
    else
      var rest := WithoutPrice(s[1..]);
      assert PriceFree(s) <==> !IsPrice(s[0]) && PriceFree(s[1..]) by {
        if !IsPrice(s[0]) && PriceFree(s[1..]) {
          forall i | 0 <= i < |s| ensures !IsPrice(s[i]) {
            if i > 0 { assert s[i] == s[1..][i - 1]; }
          }
        }
      }
      if IsPrice(s[0]) then rest else [s[0]] + rest
  }

  /** Filtering is a homomorphism of concatenation: it keeps the surviving elements in their order. */
  lemma {:induction false} WithoutPriceDistributes(a: seq<Element>, b: seq<Element>)
    ensures WithoutPrice(a + b) == WithoutPrice(a) + WithoutPrice(b)
  {
    if a != [] {
      assert (a + b)[1..] == a[1..] + b;
      WithoutPriceDistributes(a[1..], b);
    } else {
      assert a + b == b;
    }
  }

  /** A single element survives the filter exactly when it is not the price. */
  lemma WithoutPriceOfOne(e: Element)
    ensures WithoutPrice([e]) == if IsPrice(e) then [] else [e]
  {
    assert [e][1..] == [];
  }

  /** A price-free list passes through the filter unchanged. */
  lemma {:induction false} WithoutPriceKeepsPriceFree(s: seq<Element>)
    ensures PriceFree(s) ==> WithoutPrice(s) == s
  {
    if s != [] && PriceFree(s) {
      assert PriceFree(s[1..]) by {
        forall i | 0 <= i < |s| - 1 ensures !IsPrice(s[1..][i]) {
          assert s[1..][i] == s[i + 1];
        }
      }
      WithoutPriceKeepsPriceFree(s[1..]);
      assert !IsPrice(s[0]);
    }
  }

  /** Filtering twice changes nothing. */
  lemma WithoutPriceIdempotent(s: seq<Element>)
    ensures WithoutPrice(WithoutPrice(s)) == WithoutPrice(s)
  {
    WithoutPriceKeepsPriceFree(WithoutPrice(s));
  }

  /**
   * `submodel(irdi)`: the catalog's element list for the IRDI without its price
   * element. `index.js` indexes the catalog unchecked, so a missing IRDI is a
   * precondition here.
   */
  function Submodel(catalog: CapabilityCatalog, irdi: string): (r: seq<Element>)
    requires irdi in catalog
    ensures PriceFree(r)
    ensures forall e :: e in r <==> e in catalog[irdi] && !IsPrice(e)
    ensures PriceFree(catalog[irdi]) ==> r == catalog[irdi]
  {
    WithoutPriceKeepsPriceFree(catalog[irdi]);
    WithoutPrice(catalog[irdi])
  }

  /** The submodel view is already price-free: filtering it again changes nothing. */
  lemma SubmodelIsFilterFixpoint(catalog: CapabilityCatalog, irdi: string)
    requires irdi in catalog
    ensures WithoutPrice(Submodel(catalog, irdi)) == Submodel(catalog, irdi)
  {
    WithoutPriceIdempotent(catalog[irdi]);
  }

  /** The first price element of a catalog entry, as a front-to-back search finds it. */
  function FirstPrice(s: seq<Element>): (r: Element)
    requires HasPrice(s)
    ensures IsPrice(r)
    ensures exists i :: 0 <= i < |s| && s[i] == r && PriceFree(s[..i])
  {
    if IsPrice(s[0]) then
      assert s[..0] == [];
      s[0]
    else
      var j :| 0 <= j < |s| && IsPrice(s[j]);
      assert IsPrice(s[1..][j - 1]);
      var r := FirstPrice(s[1..]);
      var i :| 0 <= i < |s| - 1 && s[1..][i] == r && PriceFree(s[1..][..i]);
      assert s[..i + 1] == [s[0]] + s[1..][..i];
      assert s[i + 1] == r;
      r
  }
}
