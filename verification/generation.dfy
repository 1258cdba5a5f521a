/**
 * `generate`: builds an outgoing negotiation message from the skeleton of the
 * requested kind. It either continues a prior message (copying its
 * conversation and frame data, optionally replacing the price) or opens a new
 * call for proposal (fresh conversation id, frame data, bound catalog values).
 * The fresh id (`uuid()`) and the clock reading are parameters.
 */
module Generation {
  import opened JsValues
  import opened TypeCheck
  import opened Catalog
  import opened Evaluation
  import opened Messages

  /**
   * The argument object of `generate`. `irdi` is the empty string when the
   * caller gives none (both are falsy); `replyTime` is `None` when undefined;
   * the optional properties default to `Null`.
   */
  datatype Request = Request(
    messageType: string,
    userId: JsValue,
    irdi: string,
    submodelValues: ValueSet,
    replyTime: Option<int>,
    originalMessage: Option<Message>,
    price: JsValue,
    location: JsValue,
    startTimestamp: JsValue,
    endTimestamp: JsValue,
    creationDate: JsValue,
    userName: JsValue)

  /** The continuation branch: a prior message is given and the kind is not a call for proposal. */
  predicate Continues(req: Request)
  {
    req.originalMessage.Some? && req.messageType != "callForProposal"
  }

  /** The fresh-conversation branch: an IRDI is given and the kind is a call for proposal. */
  predicate StartsConversation(req: Request)
  {
    req.irdi != "" && req.messageType == "callForProposal"
  }

  /** Inside a continuation: the price is replaced only for a proposal with a truthy price and an IRDI. */
  predicate OverridesPrice(req: Request)
  {
    req.messageType == "proposal" && Truthy(req.price) && req.irdi != ""
  }

  /**
   * What `index.js` needs in order not to crash: the IRDI is in the catalog
   * wherever it is looked up, the catalog entry has a price element, and the
   * prior message has a first submodel when the price is replaced.
   */
  predicate CanGenerate(catalog: CapabilityCatalog, req: Request)
  {
    && (Continues(req) && OverridesPrice(req) ==>
          && req.irdi in catalog
          && HasPrice(catalog[req.irdi])
          && |req.originalMessage.value.dataElements.submodels| > 0)
    && (StartsConversation(req) ==> req.irdi in catalog)
  }

  /**
   * The top-level properties of a prior message that the spread passes on:
   * all but the three that are taken apart into their own variables.
   */
  predicate PassedOn(k: string)
  {
    k != "frame" && k != "dataElements" && k != "walletAddress"
  }

  /**
   * The sender id, the reply deadline and the user name, set on every
   * generated message. An undefined user name takes the parameter's default, null.
   */
  function Stamp(m: Message, userId: JsValue, replyBy: int, userName: JsValue): Message
  {
    m.(frame := m.frame.(senderId := userId, replyBy := Num(replyBy as real)),
       fields := m.fields["userName" := if userName.Undefined? then Null else userName])
  }

  /** The catalog's price element carrying the offered price. */
  function PricedElement(catalog: CapabilityCatalog, irdi: string, price: JsValue): (r: Element)
    requires irdi in catalog && HasPrice(catalog[irdi])
    ensures IsPrice(r) && r.value == price
    ensures exists i :: 0 <= i < |catalog[irdi]| && catalog[irdi][i].(value := price) == r
  {
    FirstPrice(catalog[irdi]).(value := price)
  }

  /**
   * Replaces the price of the first submodel: its price elements are dropped
   * and `priced` is appended, so it ends with exactly one price element.
   */
  function OverridePrice(p: Payload, priced: Element): (r: Payload)
    requires |p.submodels| > 0 && IsPrice(priced)
    ensures |r.submodels| == |p.submodels| && r.submodels[1..] == p.submodels[1..]
    ensures r.submodels[0].id == p.submodels[0].id
    ensures var es := r.submodels[0].elements;
            && |es| > 0
            && es[|es| - 1] == priced
            && PriceFree(es[..|es| - 1])
    ensures WithoutPrice(r.submodels[0].elements) == WithoutPrice(p.submodels[0].elements)
  {
    var first := p.submodels[0];
    var kept := WithoutPrice(first.elements);
    var es := kept + [priced];
    assert es[..|es| - 1] == kept;
    WithoutPriceDistributes(kept, [priced]);
    WithoutPriceOfOne(priced);
    WithoutPriceIdempotent(first.elements);
    p.(submodels := [first.(elements := es)] + p.submodels[1..])
  }

  /** Replacing the price twice leaves only the second price. */
  lemma OverridePriceTwice(p: Payload, a: Element, b: Element)
    requires |p.submodels| > 0 && IsPrice(a) && IsPrice(b)
    ensures OverridePrice(OverridePrice(p, a), b) == OverridePrice(p, b)
  {
    var once := OverridePrice(p, a);
    var es := once.submodels[0].elements;
    assert es == es[..|es| - 1] + [a];
    WithoutPriceDistributes(es[..|es| - 1], [a]);
    WithoutPriceOfOne(a);
    WithoutPriceKeepsPriceFree(es[..|es| - 1]);
    WithoutPriceIdempotent(p.submodels[0].elements);
    assert WithoutPrice(es) == WithoutPrice(p.submodels[0].elements);
  }

  /**
   * The continuation branch applied to the stamped skeleton `m`: conversation
   * and frame data come from `prior`, the reply goes back to the prior sender,
   * a truthy wallet address is carried over, and finally every other top-level
   * property of `prior` overwrites the one of the same name.
   */
  function ContinueFrom(catalog: CapabilityCatalog, m: Message, prior: Message, req: Request): (r: Message)
    requires OverridesPrice(req) ==>
      req.irdi in catalog && HasPrice(catalog[req.irdi]) && |prior.dataElements.submodels| > 0
    ensures r.frame.conversationId == prior.frame.conversationId
    ensures r.frame.receiverId == prior.frame.senderId
    ensures r.frame.senderId == m.frame.senderId && r.frame.replyBy == m.frame.replyBy
    ensures r.frame.location == prior.frame.location
    ensures r.frame.startTimestamp == prior.frame.startTimestamp
    ensures r.frame.endTimestamp == prior.frame.endTimestamp
    ensures r.frame.creationDate == prior.frame.creationDate
    ensures r.frame.rest == m.frame.rest
    ensures !OverridesPrice(req) ==> r.dataElements == prior.dataElements
    ensures OverridesPrice(req) ==>
      r.dataElements == OverridePrice(prior.dataElements, PricedElement(catalog, req.irdi, req.price))
    ensures forall k :: k in prior.fields && PassedOn(k) ==> k in r.fields && r.fields[k] == prior.fields[k]
    ensures Get(r.fields, "frame") == Get(m.fields, "frame")
    ensures Get(r.fields, "dataElements") == Get(m.fields, "dataElements")
    ensures Truthy(Get(prior.fields, "walletAddress")) ==>
      "walletAddress" in r.fields && r.fields["walletAddress"] == prior.fields["walletAddress"]
    ensures !Truthy(Get(prior.fields, "walletAddress")) ==> Get(r.fields, "walletAddress") == Get(m.fields, "walletAddress")
    ensures forall k :: k in m.fields && k !in prior.fields ==> k in r.fields && r.fields[k] == m.fields[k]
    ensures forall k :: k in r.fields ==> k in m.fields || k in prior.fields
  {
    var pf := prior.frame;
    var frame := m.frame.(
      conversationId := pf.conversationId,
      receiverId := pf.senderId,
      location := pf.location,
      startTimestamp := pf.startTimestamp,
      endTimestamp := pf.endTimestamp,
      creationDate := pf.creationDate);
    var wallet := Get(prior.fields, "walletAddress");
    var fields := if Truthy(wallet) then m.fields["walletAddress" := wallet] else m.fields;
    var payload :=
      if OverridesPrice(req)
      then OverridePrice(prior.dataElements, PricedElement(catalog, req.irdi, req.price))
      else prior.dataElements;
    Message(frame, payload, fields + (prior.fields - {"frame", "dataElements", "walletAddress"}))
  }

  /**
   * Each element of the price-free submodel, given the value the value set
   * offers for it. The schema data is kept, and when the values pass the
   * evaluation every bound value is present and of its declared type.
   */
  function Bind(elems: seq<Element>, values: ValueSet): (r: seq<Element>)
    ensures |r| == |elems|
    ensures forall i :: 0 <= i < |r| ==>
      r[i].(value := elems[i].value) == elems[i] && r[i].value == Get(values, elems[i].semanticId)
    ensures AllPass(elems, values) ==> forall i :: 0 <= i < |r| ==>
      CheckType(r[i].valueType, r[i].value) && (r[i].valueType != "boolean" ==> Truthy(r[i].value))
  {
    seq(|elems|, i requires 0 <= i < |elems| => elems[i].(value := Get(values, elems[i].semanticId)))
  }

  /** Binding a list with a first element binds that element, then the rest. */
  lemma BindCons(elems: seq<Element>, values: ValueSet)
    requires elems != []
    ensures Bind(elems, values)
         == [elems[0].(value := Get(values, elems[0].semanticId))] + Bind(elems[1..], values)
  {
  }

  /** Binding and the price filter commute, because binding never changes an element's `idShort`. */
  lemma {:induction false} BindCommutesWithPriceFilter(elems: seq<Element>, values: ValueSet)
    ensures WithoutPrice(Bind(elems, values)) == Bind(WithoutPrice(elems), values)
  {
    if elems != [] {
      var bound := elems[0].(value := Get(values, elems[0].semanticId));
      var b := Bind(elems, values);
      BindCons(elems, values);
      assert b[0] == bound && b[1..] == Bind(elems[1..], values);
      BindCommutesWithPriceFilter(elems[1..], values);
      if !IsPrice(elems[0]) {
        var kept := [elems[0]] + WithoutPrice(elems[1..]);
        assert kept != [] && kept[0] == elems[0] && kept[1..] == WithoutPrice(elems[1..]);
        BindCons(kept, values);
      }
    }
  }

  /** Binding the same values a second time changes nothing. */
  lemma BindIdempotent(elems: seq<Element>, values: ValueSet)
    ensures Bind(Bind(elems, values), values) == Bind(elems, values)
  {
  }

  /** A bound price-free view is price-free: a call for proposal never carries a price element. */
  lemma BindKeepsPriceFree(elems: seq<Element>, values: ValueSet)
    requires PriceFree(elems)
    ensures PriceFree(Bind(elems, values))
  {
  }

  /**
   * The fresh-conversation branch applied to the stamped skeleton `m`: a new
   * conversation id, the optional frame data, and, when the values evaluate
   * to "success", a single submodel binding them to the catalog elements.
   * Only the comparison with "success" matters here, so the corrected
   * fail-fast evaluation would bind the same payloads (`FailFastAgreesOnSuccess`).
   */
  function StartConversation(catalog: CapabilityCatalog, m: Message, req: Request, freshId: string): (r: Message)
    requires req.irdi in catalog
    ensures r.frame.conversationId == Str(freshId)
    ensures r.frame.senderId == m.frame.senderId && r.frame.receiverId == m.frame.receiverId
    ensures r.frame.replyBy == m.frame.replyBy && r.frame.rest == m.frame.rest
    ensures r.frame.location == if Truthy(req.location) then req.location else m.frame.location
    ensures Truthy(req.startTimestamp) && Truthy(req.endTimestamp) ==>
      r.frame.startTimestamp == req.startTimestamp && r.frame.endTimestamp == req.endTimestamp
    ensures !(Truthy(req.startTimestamp) && Truthy(req.endTimestamp)) ==>
      r.frame.startTimestamp == m.frame.startTimestamp && r.frame.endTimestamp == m.frame.endTimestamp
    ensures r.frame.creationDate == if Truthy(req.creationDate) then req.creationDate else m.frame.creationDate
    ensures r.fields == m.fields
    ensures !AllPass(Submodel(catalog, req.irdi), req.submodelValues) ==> r.dataElements == m.dataElements
    ensures AllPass(Submodel(catalog, req.irdi), req.submodelValues) ==>
      var sm := Submodel(catalog, req.irdi);
      && |r.dataElements.submodels| == 1
      && r.dataElements.submodels[0].id == Str(req.irdi)
      && var es := r.dataElements.submodels[0].elements;
         && |es| == |sm|
         && forall i :: 0 <= i < |es| ==>
              && es[i] == sm[i].(value := Get(req.submodelValues, sm[i].semanticId))
              && CheckType(es[i].valueType, es[i].value)
              && (es[i].valueType != "boolean" ==> Truthy(es[i].value))
  {
    var f0 := m.frame.(conversationId := Str(freshId));
    var f1 := if Truthy(req.location) then f0.(location := req.location) else f0;
    var f2 :=
      if Truthy(req.startTimestamp) && Truthy(req.endTimestamp)
      then f1.(startTimestamp := req.startTimestamp, endTimestamp := req.endTimestamp)
      else f1;
    var f3 := if Truthy(req.creationDate) then f2.(creationDate := req.creationDate) else f2;
    var payload :=
      if Evaluate(catalog, req.irdi, req.submodelValues) == "success"
      then m.dataElements.(submodels := [
        SubmodelInstance(Str(req.irdi), Bind(Submodel(catalog, req.irdi), req.submodelValues))])
      else m.dataElements;
    m.(frame := f3, dataElements := payload)
  }

  /**
   * `generate(request)` with `uuid()` returning `freshId` and the clock
   * reading `now`: `null` for an unknown message type, otherwise the stamped
   * skeleton, continued or opened as the request asks.
   */
  function Generate(catalog: CapabilityCatalog, skeletons: Skeletons, req: Request, freshId: string, now: int)
    : (r: Option<Message>)
    requires CanGenerate(catalog, req)
    ensures r.None? <==> req.messageType !in MessageTags
    ensures r.Some? ==> r.value.frame.senderId == req.userId
    ensures r.Some? ==> r.value.frame.replyBy == Num(ReplyBy(now, req.replyTime) as real)
  {
    match GetTemplate(skeletons, req.messageType)
    case None => None
    case Some(template) =>
      var m := Stamp(template, req.userId, ReplyBy(now, req.replyTime), req.userName);
      if Continues(req) then Some(ContinueFrom(catalog, m, req.originalMessage.value, req))
      else if StartsConversation(req) then Some(StartConversation(catalog, m, req, freshId))
      else Some(m)
  }

  /** The skeleton `generate` starts from for a known tag. */
  function SkeletonFor(skeletons: Skeletons, tag: string): Message
    requires tag in MessageTags
  {
    GetTemplate(skeletons, tag).value
  }

  /** Neither branch applies: only the sender, the deadline and the user name differ from the skeleton. */
  lemma GenerateKeepsSkeleton(catalog: CapabilityCatalog, skeletons: Skeletons, req: Request, freshId: string, now: int)
    requires CanGenerate(catalog, req)
    requires req.messageType in MessageTags && !Continues(req) && !StartsConversation(req)
    ensures var t := SkeletonFor(skeletons, req.messageType);
            var r := Generate(catalog, skeletons, req, freshId, now).value;
            && r.frame.(senderId := t.frame.senderId, replyBy := t.frame.replyBy) == t.frame
            && r.dataElements == t.dataElements
            && r.fields.Keys == t.fields.Keys + {"userName"}
            && r.fields["userName"] == (if req.userName.Undefined? then Null else req.userName)
            && forall k :: k in t.fields && k != "userName" ==> r.fields[k] == t.fields[k]
  {
  }

  /** A continuation stays in the prior conversation, answers the prior sender and copies its frame data and payload. */
  lemma GenerateContinuation(catalog: CapabilityCatalog, skeletons: Skeletons, req: Request, freshId: string, now: int)
    requires CanGenerate(catalog, req)
    requires req.messageType in MessageTags && Continues(req)
    ensures var prior := req.originalMessage.value;
            var r := Generate(catalog, skeletons, req, freshId, now).value;
            && r.frame.conversationId == prior.frame.conversationId
            && r.frame.receiverId == prior.frame.senderId
            && r.frame.senderId == req.userId
            && r.frame.location == prior.frame.location
            && r.frame.startTimestamp == prior.frame.startTimestamp
            && r.frame.endTimestamp == prior.frame.endTimestamp
            && r.frame.creationDate == prior.frame.creationDate
            && (!OverridesPrice(req) ==> r.dataElements == prior.dataElements)
            && (Truthy(Get(prior.fields, "walletAddress")) ==>
                  Get(r.fields, "walletAddress") == prior.fields["walletAddress"])
            && (forall k :: k in prior.fields && PassedOn(k) ==> Get(r.fields, k) == prior.fields[k])
            && ("userName" in prior.fields ==> Get(r.fields, "userName") == prior.fields["userName"])
            && ("userName" !in prior.fields ==>
                  Get(r.fields, "userName") == (if req.userName.Undefined? then Null else req.userName))
  {
  }

  /**
   * A priced proposal ends its first submodel with exactly one price element,
   * the catalog's, carrying the offered price; the other elements are the
   * prior ones in their order, and the other submodels are untouched.
   */
  lemma GeneratePriceOverride(catalog: CapabilityCatalog, skeletons: Skeletons, req: Request, freshId: string, now: int)
    requires CanGenerate(catalog, req)
    requires Continues(req) && OverridesPrice(req)
    ensures var prior := req.originalMessage.value.dataElements;
            var r := Generate(catalog, skeletons, req, freshId, now).value.dataElements;
            var es := r.submodels[0].elements;
            && |r.submodels| == |prior.submodels| && r.submodels[1..] == prior.submodels[1..]
            && |es| > 0
            && IsPrice(es[|es| - 1]) && es[|es| - 1].value == req.price
            && es[|es| - 1] == FirstPrice(catalog[req.irdi]).(value := req.price)
            && PriceFree(es[..|es| - 1])
            && WithoutPrice(es) == WithoutPrice(prior.submodels[0].elements)
  {
  }

  /**
   * A call for proposal with an IRDI opens a new conversation; when the values
   * evaluate to "success" the payload is exactly one submodel for the IRDI
   * whose elements carry the offered values, each of the declared type.
   */
  lemma GenerateFreshCallForProposal(catalog: CapabilityCatalog, skeletons: Skeletons, req: Request, freshId: string, now: int)
    requires CanGenerate(catalog, req)
    requires StartsConversation(req)
    ensures var t := skeletons.callForProposal;
            var r := Generate(catalog, skeletons, req, freshId, now).value;
            var sm := Submodel(catalog, req.irdi);
            && r.frame.conversationId == Str(freshId)
            && r.frame.receiverId == t.frame.receiverId
            && r.frame.location == (if Truthy(req.location) then req.location else t.frame.location)
            && r.frame.creationDate == (if Truthy(req.creationDate) then req.creationDate else t.frame.creationDate)
            && (Evaluate(catalog, req.irdi, req.submodelValues) != "success" ==> r.dataElements == t.dataElements)
            && (Evaluate(catalog, req.irdi, req.submodelValues) == "success" ==>
                  && |r.dataElements.submodels| == 1
                  && r.dataElements.submodels[0].id == Str(req.irdi)
                  && |r.dataElements.submodels[0].elements| == |sm|
                  && forall i :: 0 <= i < |sm| ==>
                       var e := r.dataElements.submodels[0].elements[i];
                       && e.(value := sm[i].value) == sm[i]
                       && e.value == Get(req.submodelValues, sm[i].semanticId)
                       && CheckType(e.valueType, e.value))
  {
  }

  /** A prior message is ignored by a call for proposal. */
  lemma CallForProposalIgnoresPrior(catalog: CapabilityCatalog, skeletons: Skeletons, req: Request, freshId: string, now: int)
    requires CanGenerate(catalog, req) && StartsConversation(req)
    ensures Generate(catalog, skeletons, req, freshId, now)
         == Generate(catalog, skeletons, req.(originalMessage := None), freshId, now)
  {
  }

  /**
   * Two steps of a negotiation: a reply to a generated call for proposal can
   * be generated, carries the freshly minted conversation id and is addressed
   * to the caller who opened the conversation.
   */
  lemma ConversationIdCarriesOver(
    catalog: CapabilityCatalog, skeletons: Skeletons, open: Request, reply: Request,
    freshId: string, otherId: string, now: int, later: int)
    requires open.irdi in catalog && StartsConversation(open)
    requires reply.messageType in MessageTags && reply.messageType != "callForProposal"
    requires OverridesPrice(reply) ==>
      && reply.irdi in catalog && HasPrice(catalog[reply.irdi])
      && (AllPass(Submodel(catalog, open.irdi), open.submodelValues)
          || |skeletons.callForProposal.dataElements.submodels| > 0)
    ensures var cfp := Generate(catalog, skeletons, open, freshId, now);
            var answer := reply.(originalMessage := cfp);
            && CanGenerate(catalog, answer)
            && var r := Generate(catalog, skeletons, answer, otherId, later).value;
               && r.frame.conversationId == Str(freshId)
               && r.frame.receiverId == open.userId
               && r.frame.senderId == reply.userId
  {
  }

  /** The one-element integer schema: a call for proposal offering 42 binds power = 42 in a new conversation. */
  lemma CallForProposalScenario(skeletons: Skeletons, freshId: string, now: int)
    ensures var power := Element("power", "s1", "integer", Undefined);
            var catalog := map["X" := [power]];
            var req := Request("callForProposal", Str("u1"), "X", map["s1" := Num(42.0)], None,
                               None, Null, Null, Null, Null, Null, Null);
            var r := Generate(catalog, skeletons, req, freshId, now);
            && r.Some?
            && r.value.frame.conversationId == Str(freshId)
            && r.value.frame.senderId == Str("u1")
            && r.value.dataElements.submodels == [SubmodelInstance(Str("X"), [power.(value := Num(42.0))])]
  {
    var power := Element("power", "s1", "integer", Undefined);
    var catalog := map["X" := [power]];
    assert Submodel(catalog, "X") == [power];
    assert Passes(power, map["s1" := Num(42.0)]);
    assert AllPass([power], map["s1" := Num(42.0)]);
    var req := Request("callForProposal", Str("u1"), "X", map["s1" := Num(42.0)], None,
                       None, Null, Null, Null, Null, Null, Null);
    GenerateFreshCallForProposal(catalog, skeletons, req, freshId, now);
    var r := Generate(catalog, skeletons, req, freshId, now);
    assert r.Some?;
    assert r.value.frame.conversationId == Str(freshId);
    assert r.value.frame.senderId == Str("u1");
    assert |r.value.dataElements.submodels| == 1;
    assert r.value.dataElements.submodels[0].elements == [power.(value := Num(42.0))];
  }
}
