# Negotiation message builder — Dafny model

This project models the message builder of an industry-4.0 contract-negotiation
protocol. The message kinds are call for proposal, proposal, accept, reject,
inform-confirm and inform-payment. The model covers four components of `index.js`:

- `checkType`: validates a value against the value-type tag of a catalog element (`TypeCheck`).
- `submodel`: returns the eCl@ss catalog entry for an IRDI with its price element removed (`Catalog`).
- `evaluate`: checks offered values for presence and type against that view (`Evaluation`).
- `generate`: picks a skeleton with `getTemplate`, stamps the sender and the `getReplyByTime` deadline,
  and then either continues a prior message or opens a new call for proposal (`Messages`, `Generation`).

JavaScript values are a sum type (`JsValues.JsValue`) with `typeof` and truthiness written out.
Numbers are exact rationals, and `NaN` is a separate value.
Every top-level message property other than `frame` and `dataElements` is kept in one map.
A continuation passes on every entry of that map except `frame`, `dataElements` and
`walletAddress`, because those three are destructured out before the spread.
That includes `userName`, `walletAddress` and extension data, so the object spread at the end of a
continuation is a map union in which the prior message's properties win.
`TypeCheck.CheckType` has no precondition, so like the code it is total. It has no contract of
its own. The `TypeCheck` lemmas state its rules, one lemma per tag family: string-like, floating-point,
integer, sign, date, boolean, complexType and the permissive rest.
The catalog is a map from IRDI to an element list.
The six skeletons, the id that `uuid()` returns and the clock reading are parameters.

Three behaviours of the code differ from what a reader might expect, and the model follows the code:

- `evaluate` does not stop at the first failure. The `some` callback returns `null` on every
  path, so every element is visited and the reason of the LAST failing element is returned.
  The corrected fail-fast walk is under "Findings".
- A boolean element with no value skips the presence check but fails the type check.
  It is reported as "Type for … is invalid", not accepted.
- A missing IRDI is not turned into a "not found" error. The code indexes the catalog unchecked,
  so a present IRDI is a precondition.

## Model

| member | source | states |
|---|---|---|
| TypeCheck.CheckType | index.js:50-98 | the validator itself, total over every tag and value; it has no contract of its own and its rule table is stated by the TypeCheck lemmas below, one per tag family |
| TypeCheck.StringTagsAcceptExactlyStrings | index.js:52-55 | string, langString and anyURI accept exactly strings, the empty string included |
| TypeCheck.FloatTagsAcceptExactlyNumbers | index.js:57-60 | decimal, double and float accept exactly numbers, fractions and NaN included |
| TypeCheck.IntegerTagsAcceptExactlyIntegers | index.js:62-70 | the eight integer-family tags accept exactly the numbers equal to some mathematical integer; fractions, NaN and non-numbers fail |
| TypeCheck.SignTagsAcceptExactlyBoundedIntegers | index.js:71-79 | nonNegativeInteger accepts exactly the integers >= 0; positiveInteger and time exactly those > 0; nonPositiveInteger those <= 0; negativeInteger those < 0 |
| TypeCheck.SignTagsNarrowIntegerTags | index.js:62-79 | every value a sign tag accepts is accepted by every integer-family tag |
| TypeCheck.ZeroBoundary | index.js:62-79 | 0 passes nonNegativeInteger, nonPositiveInteger and every integer-family tag, and fails positiveInteger, time and negativeInteger |
| TypeCheck.FractionsAndNaNAreNotIntegers | index.js:62-79 | a number with a fractional part, and NaN, fail every integer-family and sign tag |
| TypeCheck.DateTagsOnlyAskForANumber | index.js:81-84 | date, dateTime and dateTimeStamp accept exactly what double accepts: any number, NaN included |
| TypeCheck.BooleanTagAcceptsExactlyBooleans | index.js:86-87 | boolean accepts exactly true and false, so an absent value fails it |
| TypeCheck.ComplexTypeAcceptsObjectsAndNull | index.js:89-90 | complexType accepts exactly objects, arrays and null |
| TypeCheck.UnknownTagsAcceptEverything | index.js:92-96 | anyType, anySimpleType, anyAtomicType and every tag without a case accept every value |
| Catalog.WithoutPrice | index.js:23 | the filtered list holds no price element, holds exactly the non-price elements of its input, and is as long as the input iff the input had no price element |
| Catalog.WithoutPriceDistributes | index.js:23 | filtering a concatenation is the concatenation of the filtered parts, so survivors keep their original order |
| Catalog.WithoutPriceOfOne | index.js:23 | a single element survives the filter iff its idShort is neither preis nor price |
| Catalog.WithoutPriceKeepsPriceFree | index.js:23 | a list without price elements passes through the filter unchanged |
| Catalog.WithoutPriceIdempotent | index.js:23 | filtering twice gives the same list as filtering once |
| Catalog.Submodel | index.js:22-24 | the view of a catalog entry contains no price element and exactly the entry's other elements; an entry without price is returned as is |
| Catalog.SubmodelIsFilterFixpoint | index.js:22-24 | removing price elements from the submodel view changes nothing |
| Catalog.FirstPrice | index.js:142 | the element found is a price element and every element before it in the entry is not |
| Evaluation.Verdict | index.js:34-44 | one element yields no reason iff it passes presence and type; a failed presence check gives the missing reason before the type is looked at; no reason equals "success" |
| Evaluation.Walk | index.js:32-46 | the `some` walk over the elements, overwriting the status with each failing element's reason; it has no contract of its own, and its result is stated by WalkKeepsStatusWhenAllPass, WalkReportsLastFailure and WalkFindsAFailureIffSomeFails |
| Evaluation.WalkKeepsStatusWhenAllPass | index.js:33-46 | when every element passes, the walk leaves the status as it found it |
| Evaluation.WalkReportsLastFailure | index.js:33-46 | whatever the starting status, the walk ends with the reason of the last failing element |
| Evaluation.FailureHasLast | index.js:33-46 | when some element fails there is a last failing one |
| Evaluation.WalkFindsAFailureIffSomeFails | index.js:32-47 | started with no status, the walk ends with a reason iff some element fails, and that reason is never "success", so falling back to "success" on an empty status gives "success" iff nothing failed |
| Evaluation.Evaluate | index.js:30-48 | computed as the walk's final status or "success"; "success" iff every element of the submodel view passes both its presence and its type check |
| Evaluation.EvaluateReportsLastFailure | index.js:30-48 | when some element fails, the result is the reason of the last failing element in schema order |
| Evaluation.LastFailureWinsAsWritten | index.js:33-46 | with two elements that both lack values, the as-written evaluation reports the second element and the fail-fast one the first |
| Evaluation.FalsyValueIsMissing | index.js:35-37 | a non-boolean element whose value is falsy (absent, 0, "", NaN, null, false) is reported missing |
| Evaluation.ZeroNonNegativeIsMissing | index.js:35-37 | 0 offered for a nonNegativeInteger element is well typed and still reported missing |
| Evaluation.MissingBooleanIsInvalid | index.js:35-43 | a boolean element with no value is reported with the invalid-type reason |
| Evaluation.FalseBooleanPasses | index.js:35-43 | false is accepted for a boolean element although it is falsy |
| Evaluation.IntegerScenario | index.js:30-48 | for one integer element, 42 gives "success", the string "42" the invalid reason and no value the missing reason |
| Evaluation.FirstFailure | index.js:33-46 | the fail-fast walk yields no reason iff every element passes, and otherwise the reason of the first failing element |
| Evaluation.EvaluateFailFast | index.js:33-47 | "success" iff every element passes; otherwise the reason of a failing element before which all elements pass |
| Evaluation.FailFastAgreesOnSuccess | index.js:170 | the as-written and the fail-fast evaluations return "success" for exactly the same value sets |
| Messages.ParseKind | index.js:194-211 | a tag names a kind iff it is one of the six message tags, and the kind's tag is that string |
| Messages.TagRoundTrip | index.js:194-211 | every kind's tag parses back to that kind |
| Messages.GetTemplate | index.js:194-211 | null iff the tag is not one of the six; for a kind's tag, that kind's skeleton |
| Messages.ReplyBy | index.js:187-192 | the deadline is a whole second and lies within one second below now + minutes·60000 ms, with 10 minutes when none is given |
| Messages.ReplyByMonotonic | index.js:187-192 | a later clock reading or a longer offset never gives an earlier deadline |
| Messages.ReplyByDefaultsToTenMinutes | index.js:187-189 | from a whole-second clock reading and no offset, the deadline is exactly 600000 ms later |
| Generation.Continues | index.js:127 | the continuation test: a prior message is given and the message type is not callForProposal; it has no contract, and GenerateContinuation states what follows from it |
| Generation.OverridesPrice | index.js:141 | the price-override test: the type is proposal, the price is truthy and an IRDI is given; it has no contract, and GeneratePriceOverride states what follows from it |
| Generation.StartsConversation | index.js:154 | the fresh-conversation test: an IRDI is given and the type is callForProposal; it has no contract, and GenerateFreshCallForProposal states what follows from it |
| Generation.Stamp | index.js:117-125 | sets the sender id, the reply deadline and userName on the skeleton, an undefined userName taking its default null; it has no contract, and GenerateKeepsSkeleton states that nothing else changes |
| Generation.PricedElement | index.js:142-143 | the element is a price element of the catalog entry with its value replaced by the offered price |
| Generation.OverridePrice | index.js:141-150 | the first submodel ends with the given price element and has no other; its non-price elements are the prior ones in order; other submodels and the id are unchanged |
| Generation.OverridePriceTwice | index.js:141-150 | replacing the price twice is the same as replacing it once with the second price |
| Generation.ContinueFrom | index.js:127-153 | conversation id, location, timestamps and creation date are copied; the receiver is the prior sender; the payload is copied or re-priced; a truthy wallet is carried; every other prior property overwrites its namesake; no other property appears |
| Generation.Bind | index.js:172-174 | each element keeps its schema data (idShort, semanticId, valueType) and takes the value offered for its semantic id; when the values pass the evaluation, every bound value is of its declared type and, unless boolean, truthy |
| Generation.BindCommutesWithPriceFilter | index.js:172-174 | binding and the price filter commute: binding the price-free view equals filtering the bound list, since binding never changes an idShort |
| Generation.BindIdempotent | index.js:172-174 | binding the same value set twice gives the same list as binding it once |
| Generation.BindKeepsPriceFree | index.js:171-174 | binding the price-free submodel view yields a price-free list, so a call for proposal never carries a price element |
| Generation.StartConversation | index.js:154-181 | fresh conversation id; location and creation date only when truthy, timestamps only when both are truthy; on success exactly one submodel for the IRDI whose values are present and well typed; otherwise the payload is left alone |
| Generation.Generate | index.js:105-185 | null iff the message type is not one of the six tags; otherwise the sender id is the user id and replyBy is the deadline |
| Generation.GenerateKeepsSkeleton | index.js:117-125 | when neither branch applies, only the sender id, the deadline and userName differ from the skeleton, and userName is the argument or, when undefined, null |
| Generation.GenerateContinuation | index.js:127-153 | a continuation keeps the prior conversation id, answers the prior sender, copies frame data and, without a price override, the payload; the prior userName and other properties win, and without a prior userName the argument (null when undefined) stays |
| Generation.GeneratePriceOverride | index.js:141-150 | a priced proposal ends its first submodel with exactly one price element, the catalog's, valued at the offered price; other elements keep their order |
| Generation.GenerateFreshCallForProposal | index.js:154-181 | a call for proposal with an IRDI gets the fresh conversation id; on "success" it carries one submodel for the IRDI with each value well typed; otherwise the skeleton payload |
| Generation.CallForProposalIgnoresPrior | index.js:127-154 | a call for proposal is the same whether or not a prior message is passed |
| Generation.ConversationIdCarriesOver | index.js:127-155 | a reply to a generated call for proposal can be generated, carries the call's fresh conversation id and is addressed to the call's sender; a priced reply needs a first submodel only when the call's evaluation failed |
| Generation.CallForProposalScenario | index.js:154-181 | offering 42 for a one-element integer schema yields a message with the fresh id, sender u1 and one submodel binding power = 42 |

## Findings

| source | as written | input that shows it | evidently intended | confidence | as-written member | corrected member |
|---|---|---|---|---|---|---|
| index.js:33-46 | the `some` callback returns `null` on every path, so the walk never stops and each failure overwrites the previous reason | two elements with no values: the reason names the second one | stop at the first failing element and report it (the callback returning `true`) | medium, not executed | Evaluation.LastFailureWinsAsWritten | Evaluation.EvaluateFailFast |

`Generation.StartConversation` calls the as-written `Evaluation.Evaluate`, as the code does.
It only compares the result with "success". `Evaluation.FailFastAgreesOnSuccess` proves that
the two evaluations agree on that comparison. So using the corrected evaluation would produce exactly the same messages.

## Left out

- `operations()` (index.js:14-16) returns a static JSON file; there is nothing to model.
- Loading the catalog and the six templates with `require` (index.js:2-9): they are input tables, `Catalog.CapabilityCatalog` and `Messages.Skeletons`, with unknown contents.
- `uuid()` (index.js:155) and `new Date()` (index.js:188) are the `freshId` and `now` parameters of `Generation.Generate`.
- Messages.ReplyBy: minutes are whole numbers. A fractional, `null` or non-number `replyTime` is not modelled, and neither is the JavaScript date range limit. The string round trip of `Date.parse` is modelled only as rounding down to whole seconds.
- Mutation through shared objects is not modelled; the model has value semantics. In the code, `getTemplate` hands out the one template object of each kind, and every call writes into it: the stamp (index.js:123-125), the continuation's frame fields, payload and wallet address (index.js:129-139), and the fresh conversation id, frame data and payload (index.js:155-175). The continuation's final spread (index.js:153) copies only the top level, so its `frame` is still the template's. A call for proposal, and a call that takes neither branch, returns the template object itself (index.js:184). So a later call changes messages that were already returned, not only what later calls start from. The catalog's price element is mutated (index.js:143). The prior message's payload is changed through an alias (index.js:131, 149).
- Generation.Generate: crash paths are preconditions (`CanGenerate`), not exceptions. These are an IRDI missing from the catalog (index.js:23, 142), a catalog entry without a price element (index.js:143) and a prior message without a first submodel (index.js:145).
- Catalog.Submodel: a missing IRDI is a precondition. The code throws a TypeError there, so no "not found" result is modelled.
- IEEE-754 details: Infinity, negative zero and rounding of the floating-point remainder are not represented. NaN is modelled only as falsy and failing every comparison.
- The IRDI is a string, with the empty string standing for every falsy IRDI. A non-string IRDI coerced to a property name is not modelled.
- The value set is a finite map. Lookups of inherited object properties, and an undefined `submodelValues` (a crash), are not modelled.
- Element properties other than idShort, semanticId, valueType and value are not modelled; the spread `{ ...element, value }` would keep them. Sender and receiver objects are modelled only by their `identification.id`, and `dataElements` only by its `submodels`.
- A prior message whose `frame` or `dataElements` is missing is not modelled: every message has both.
- The commented-out `module.exports` block (index.js:213-218).
